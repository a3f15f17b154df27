# Verified models of the polaris-limiter quota engine

polaris-limiter is a rate-limit server: clients open a stream, register the counters of their rules, and report what they
used; the server answers with what is left in the sliding window of each counter and pushes a message to the other
clients when a quota runs out. Everything it counts is also added to per-stream collectors, from which a flusher feeds
metrics and log files. A disk-hang detector and a re-registration loop run beside this.

The project models that engine and proves what it is for. State-keeping parts are classes with the source's own fields
and a ghost history; concurrent protocols are global states with atomic steps and invariants over every run.

| file | what it models |
|---|---|
| `WindowSpec.dfy`, `SlidingWindow.dfy` | the ring of buckets, against a sum over the whole call history |
| `Occupy.dfy` | remaining quota and edge-triggered pushes |
| `ClientTable.dfy`, `ClientManager.dfy`, `Lifecycle.dfy` | the client table as values, in place, and over all runs of streams |
| `Pushes.dfy` | pushing to the subscribers of a counter |
| `Counters.dfy`, `CounterManager.dfy` | one counter and its clients; the counter table, its cursor and its cleaner |
| `Bits.dfy`, `WireKey.dfy` | the packed counter key and the report loop |
| `Accounting.dfy` | usage accounting under every interleaving of streams and flusher |
| `MetricSeries.dfy`, `CurveDeltas.dfy`, `CurveReport.dfy` | one flush: series and their eviction, the two sinks, the file plugin |
| `CasLoops.dfy` | the compare-and-swap loops |
| `IoHang.dfy`, `ReRegister.dfy` | the health detector in discrete time; the re-registration machine |
| `Sums.dfy`, `StatTypes.dfy`, `Wrappers.dfy` | sums over sequences; keys and amounts; 32-bit words |

Conventions. Amounts of the window, rule amounts and client counts are 32-bit words with their wrap-around (`U32`). Times
are integers. Tag values, client ids and stream ids are represented by numbers, since only their identity matters. The
fields of the source's stable value are fields of the window class here. Critical sections of the client and counter tables
(`AddClient`, `DelClient`, `AllocateCounterKey`, `CleanupCounter`, and the cleaner's read between them) and of a counter's
client set (`AddSender`, `DelSender`) are one method each, so that `Valid()` before and after each of them is an
invariant of every interleaving. Other methods hold no mutex for their whole body and are proved for uninterrupted calls;
"Left out" names them.

Hypotheses. Server times given to one window are non-negative and never decrease, and each window call is one step. The
window sizes satisfy `Fits`, which every rule of whole seconds and at most ten sub-windows does (`WholeSecondsFit`), and
which is necessary (`FitsIsNecessary`). Stream ids are unique. Runs over the client table have fewer than 2^32 - 1 steps,
because the cursor wraps to key 0 after that and the table is then indexed at -1 (`AddOutcome` says exactly when).

Things the proofs turned up, each stated exactly by a lemma or method below:

- A counter key that is recycled to another rule while a collector still has an entry for it is booked under the old
  rule's tags, and exactly then (`Accounting.BookedAsNamed`; a run is `Accounting.RecycledKeyRun`).
- The curve log and the metrics of one flush show the same amounts per key and dimension if and only if every key has one
  dimension in the flush (`CurveDeltas.LogAgreesExactly`). In a dimension they differ by exactly the amounts that move to it
  and away from it (`CurveDeltas.RowDimsBalance`); a run of the flusher in which they do is `Accounting.DivergingFlush`.
- Subscriptions and counted clients of a counter stay in step if and only if the id of a new subscription is new or recorded
  with this key, and the key is free in the counter or subscribed by the same id (`Counters.Subscribe`). A client that
  reconnects under a new key breaks the first: it is served but not counted, and in divide mode the amount in force can end
  at 0 (`Counters.ReconnectRun`). A client that gets the key of one that is gone breaks the second: two are counted where one
  is, and one is still counted when the counter has expired (`Counters.ReuseRun`, `Counters.ReuseRunExpires`).
- Push order holds per subscription, not per client: a client that registers again can be sent an older message
  (`Pushes.ResubscribedGoesBack`).
- A heartbeat can start a re-registration loop although another loop has completed since the answers it acts on
  (`ReRegister.SettledTrigger`); that is the only such case (`ReRegister.SettledExactlyIfCompleted`).
- Timely probes are never reported stale if and only if the staleness is at least 2 * interval + min(timeout, 2 * interval)
  (`IoHang.LeastStalenessExact`). The floor that the configuration puts in is exactly this for timeouts of up to two
  intervals, and more than needed beyond.
- The comment on the start-up wait promises a verdict without condition; the code needs the first write to begin within one
  timeout (`IoHang.FirstResultIsConclusive`), and `IoHang.WaitCanEndWarm` is a run that ends the wait without one.

## Model

| member | source | states |
|---|---|---|
| SlidingWindows.SlidingWindow.AddAndGetCurrent | pkg/utils/sliding.go:74-86 | after any history with non-decreasing server times the answer is the sum, modulo 2^32, over all reports ever made whose client and server times lie in one sub-window that is among the last slideCount; ring, stable value and fast path cannot be observed |
| SlidingWindows.SlidingWindow.CurrentWindow | pkg/utils/sliding.go:55-71 | gives the bucket of a time; recycling brings ring and stable value forward to that time |
| SlidingWindows.SlidingWindow.Reload | pkg/utils/sliding.go:106-140 | one-step fast path, reset after a long gap and fallback scan all leave exactly the full-scan value |
| SlidingWindows.SlidingWindow.ReloadNext | pkg/utils/sliding.go:117-130 | one sub-window on, subtracting the expired bucket and adding the previous one leaves the full-scan value |
| SlidingWindows.SlidingWindow.FullScan | pkg/utils/sliding.go:132-138 | the fallback loop adds up exactly the buckets with 0 < distance < interval |
| SlidingWindows.SlidingWindow.Count | pkg/utils/sliding.go:76-85 | an amount enters the ring only if the client's sub-window is the bucket's, and stable value plus bucket is the usage |
| SlidingWindows.SlidingWindow.constructor | pkg/utils/sliding.go:29-41 | a new window is valid and has no usage, for every size that fits |
| WindowSpec.FastPathExact | pkg/utils/sliding.go:118-129 | subtracting the expired bucket and adding the previous one equals the scan one sub-window later |
| WindowSpec.GapExact | pkg/utils/sliding.go:111-116 | after a gap of an interval the scan is 0, so the reset is exact |
| WindowSpec.ScanExact | pkg/utils/sliding.go:131-139 | scan plus current bucket is the live part of the whole history, also when slideCount does not divide the interval |
| WindowSpec.ScanNonNegative | pkg/utils/sliding.go:98-103 | the stable value is never negative, so the clamp is dead |
| WindowSpec.AcceptedExact | pkg/utils/sliding.go:44-46 | in plain times: client and server agree on a sub-window exactly if both lie between its bounds, that of time 0 reaching back to less than one length before it, since the remainder of a negative time is negative |
| WindowSpec.LiveSumExact | pkg/utils/sliding.go:74-86 | the live part of the history, sub-window by sub-window, is the sum over the reports whose times lie within the bounds of the window |
| WindowSpec.RecycleTracks | pkg/utils/sliding.go:55-71 | recycling the slot of any later sub-window keeps every bucket truthful about the history |
| WindowSpec.ReportTracks | pkg/utils/sliding.go:74-86 | a counted or refused report keeps every bucket truthful about the longer history |
| WindowSpec.WholeSecondsFit | ratelimitv2/utils.go:68-79 | rules of whole seconds with at most ten sub-windows have sizes for which the window is exact |
| WindowSpec.FitsIsNecessary | pkg/utils/sliding.go:133-137 | for any larger interval a truthful ring counts a report that is out of the window |
| Occupy.OccupyAllocator.Allocate | ratelimitv2/occupy.go:54-82 | left is maxAmount minus windowed usage, and a push goes out exactly at a rising edge of left <= 0 over active reports |
| Occupy.OccupyAllocator.DetectEdge | ratelimitv2/occupy.go:69-80 | reports without use or limit leave the flag alone, others make it follow left <= 0; its rise is the push |
| Occupy.EdgeTriggeredStep | ratelimitv2/occupy.go:73-80 | a log stays edge-triggered exactly by pushing at rising edges |
| Occupy.UsedUpStep | ratelimitv2/occupy.go:69-80 | only active reports change whether the quota counts as used up |
| Occupy.BetweenPushes | ratelimitv2/occupy.go:73-80 | between two pushes some active report saw quota left |
| Occupy.ExhaustionAnnounced | ratelimitv2/occupy.go:73-80 | an active report that sees no quota left is preceded by its push, with no recovery in between |
| Pushes.Subscriptions.PushMessage | ratelimitv2/counter.go:381-410 | a message is accepted, once, by exactly the subscriptions of other clients with a stream that have accepted nothing as late |
| Pushes.Subscriptions.PushTo | ratelimitv2/counter.go:382-393 | one subscriber: accepted exactly if it listens and the message is later |
| Pushes.Subscriptions.SendAndUpdate | ratelimitv2/client.go:177-195 | lost without a stream, refused when out of date, otherwise the new latest time |
| Pushes.PushesInOrder | ratelimitv2/client.go:142-152 | of any sequence of messages the accepted ones strictly increase and end at the latest of all |
| Pushes.ResubscribedGoesBack | ratelimitv2/counter.go:110-112 | a new registration forgets what was accepted, so an older message is then sent again |
| ClientTable.AddOutcome | ratelimitv2/manager.go:287-312 | a new id is refused exactly when maxSize clients are live, however far refusals pushed the cursor; the only other outcome is the wrap of the cursor |
| ClientTable.AddKeepsInv | ratelimitv2/manager.go:287-312 | live keys and the duplicate-free free list stay exactly 1..min(cursor, maxSize), and ids stay in bijection with live keys |
| ClientTable.DelKeepsInv | ratelimitv2/manager.go:347-360 | the same for a closing stream |
| ClientTable.DelOutcome | ratelimitv2/manager.go:347-360 | a close removes a client exactly if the closing stream is the one it is bound to, and frees its key once |
| ClientTable.AddBinds | ratelimitv2/manager.go:287-312 | an addition answers with a client of that id bound to that stream, the old object for a living id |
| ClientManagers.ClientManager.AddClient | ratelimitv2/manager.go:287-312 | slot array, id map, free list and client objects change as the table function says |
| ClientManagers.ClientManager.DelClient | ratelimitv2/manager.go:347-360 | removal in place refines the table's |
| ClientManagers.ClientManager.NextKey | ratelimitv2/manager.go:298-307 | the oldest freed key first, else the next of the cursor, 0 when out of range |
| ClientManagers.ClientManager.GetClient | ratelimitv2/manager.go:333-344 | finds exactly the live keys, and an undetached client that carries the key |
| ClientManagers.ClientObject.Detach | ratelimitv2/client.go:206-213 | detaches only the client meant, and only from the stream it is on |
| ClientManagers.ClientObject.UpdateStreamContext | ratelimitv2/client.go:228-261 | rebinds unless detached, and says so |
| ClientManagers.CleanupClient | ratelimitv2/server.go:59-63 | clears a client exactly if its removal succeeded |
| Lifecycle.RunInv | apiserver/grpc/api_v2.go:40-49 | over every run of connect, name, reconnect, close and clean-up each client in the table is undetached and bound to an open stream that holds it |
| Lifecycle.NoLeak | apiserver/grpc/api_v2.go:40-49 | with no stream open the table is empty and every key handed out is free |
| Lifecycle.AllCleared | ratelimitv2/server.go:59-63 | once every stream has closed and cleaned up, every client ever made is detached and has no stream |
| Lifecycle.CloseExact | ratelimitv2/manager.go:347-360 | closing a stale stream changes nothing; closing the owner frees exactly its client's key, which was not free |
| Lifecycle.RefusedExactlyWhenFull | ratelimitv2/core.go:34-47 | in every reachable state a new id is refused exactly when maxSize clients are live |
| Lifecycle.ReconnectMoves | ratelimitv2/manager.go:287-312 | a reconnecting client keeps its key and object, and no other stream's close removes it |
| Counters.Counter.AddSender | ratelimitv2/counter.go:103-138 | after subscribing the amount in force is the rule amount in whole mode, and ids times rule amount modulo 2^32 in divide mode; no id is without keys; says what is recorded |
| Counters.Counter.DelSender | ratelimitv2/counter.go:146-184 | removes exactly for a known id whose counter is gone or which is detached; the amount in force is right for the ids that are left, in either mode |
| Counters.Counter.Recount | ratelimitv2/counter.go:165-183 | restores count and amount in force after ids were removed |
| Counters.Counter.Reload | ratelimitv2/counter.go:269-277 | a changed rule is in force at once, with the amount it gives the clients there are, in either mode |
| Counters.Counter.CleanupSenders | ratelimitv2/counter.go:290-296 | every recorded key whose subscription is of a detached client, or of an expired counter, goes, in whatever order; every other recorded key stays, among them keys whose subscription another id has taken over; the amount in force follows |
| Counters.AllGoneIffBacked | ratelimitv2/counter.go:290-296 | an expired counter ends with nobody counted if and only if every recorded key was a subscription of its id |
| Counters.RemainingInStep | ratelimitv2/counter.go:290-296 | cleaning keeps subscriptions and counted ids in step, both ways |
| Counters.Without | ratelimitv2/counter.go:160-164 | no id is ever left without a key |
| Counters.Subscribe | ratelimitv2/counter.go:103-118 | subscriptions and counted ids stay in step, both ways, if and only if the id is new or has this very key, and the key is free in the counter or subscribed by the same id |
| Counters.ReconnectedClientIsNotCounted | ratelimitv2/counter.go:146-184 | a client that reconnected under a new key is subscribed and not counted after the next cleaning |
| Counters.OverwrittenClientStaysCounted | ratelimitv2/counter.go:110-118 | a client whose key another id has taken over stays counted through every cleaning, the final one too |
| Counters.ReconnectRun | ratelimitv2/counter.go:146-184 | a run: one client subscribed, none counted, and in divide mode the share of none in force |
| Counters.ReuseRun | ratelimitv2/counter.go:110-118 | a run: one client subscribed, two counted, and the share of two in force |
| Counters.ReuseRunExpires | ratelimitv2/counter.go:290-296 | its end: nobody subscribed, one counted |
| ClientTable.KeyIsReused | ratelimitv2/manager.go:287-312 | the table hands the key of a closed client to the next one |
| ClientTable.ReconnectChangesKey | ratelimitv2/manager.go:287-312 | a client that closes after another one comes back with that one's key |
| CounterManagers.CounterManager.LookupCounterKey | ratelimitv2/manager.go:147-160 | stops at the first free key after the cursor, fails exactly if all are taken |
| CounterManagers.ScanVisitsAll | ratelimitv2/manager.go:147-160 | maxSize advances look at every key |
| CounterManagers.ScanVisitsOnce | ratelimitv2/manager.go:147-160 | and at none twice |
| CounterManagers.GrantsApart | ratelimitv2/manager.go:147-160 | two grants of one key are at least maxSize advances apart |
| CounterManagers.CounterManager.AllocateCounterKey | ratelimitv2/manager.go:163-185 | fails exactly if the identifier is new and all keys are taken; otherwise answers the identifier's own counter |
| CounterManagers.CounterManager.AddCounter | ratelimitv2/manager.go:193-216 | after a successful registration, of a new or an existing identifier, its counter has the amount, mode, duration and expiry of the request and its client subscribed and counted; no other counter changes |
| CounterManagers.CounterManager.Install | ratelimitv2/manager.go:175-184 | a new counter sits under a free key and was made for the rule and the client of the request |
| CounterManagers.InstallKeepsBijective | ratelimitv2/manager.go:181-183 | a new counter keeps map, key set and slots in bijection |
| CounterManagers.RemoveKeepsBijective | ratelimitv2/manager.go:93-98 | an expired counter leaves all three, and its slot was not empty |
| CounterManagers.Bijection | ratelimitv2/manager.go:56-74 | identifiers and allocated keys are in bijection |
| CounterManagers.SomeKeyFree | ratelimitv2/manager.go:172-174 | below capacity a key is free |
| CounterManagers.CounterManager.CleanupCounter | ratelimitv2/manager.go:90-116 | the pair read before the mutex is still there with its counter in the slot; it goes from all three structures exactly if it was not updated for longer than its expiry |
| CounterManagers.CounterManager.CleanPair | ratelimitv2/manager.go:132-140 | one round of the cleaner: the counter leaves the table exactly if expired, and of its clients exactly the removable ones go |
| CounterManagers.CounterManager.ReadPair | ratelimitv2/manager.go:132-140 | the unlocked read of the cleaner, whose pair every later allocation leaves valid |
| CounterManagers.CounterManager.GetCounter | ratelimitv2/manager.go:245-256 | finds exactly the allocated keys, and a counter that carries the key and its identifier |
| WireKeys.ParsedConfigFits | pkg/config/config.go:100-118 | every accepted configuration fits the wire format, fitting ones are kept, a missing key limit becomes 16777215, and exactly the hopeless ones are turned away |
| WireKeys.UnboxExact | ratelimitv2/core.go:169-183 | unboxing accepts exactly the boxed keys 1..MaxCounter of this node and gives back what was boxed |
| WireKeys.BoxIdempotent | ratelimitv2/core.go:209 | boxing the request's own key gives that key |
| WireKeys.BoxedNumber | ratelimitv2/core.go:169-171 | on the wire a key is 2^24 times the node number plus the table key |
| WireKeys.NodesApart | ratelimitv2/core.go:169-183 | nodes with different numbers share no wire key |
| WireKeys.LeadsExact | ratelimitv2/core.go:196-206 | a counter in the table is found under the boxed form of its key and under nothing else |
| WireKeys.OneCounterPerKey | ratelimitv2/core.go:196-206 | two counters never share a wire key |
| WireKeys.Server.IssueKey | ratelimitv2/core.go:78-92 | a key given out at registration leads back to the same live counter, which then has the request's rule in force and its client subscribed and counted |
| WireKeys.Server.AcquireOne | ratelimitv2/core.go:196-211 | one use is answered under its own key by the counter the key leads to, or with that key's code |
| WireKeys.Server.AcquireQuota | ratelimitv2/core.go:186-215 | a well-formed report is answered with exactly its longest valid prefix, a malformed one with its error alone; exactly the counters answered for are marked alive |
| Accounting.ExactlyOnce | plugin/statis/prometheus/statis.go:445-502 | after every interleaving, added = exported + aggregating + in the flusher's hand + in value objects, and nothing is held where no dump will come |
| Accounting.NeverTwice | plugin/statis/prometheus/statis.go:280-295 | a collector met in both the snapshot and the dropped map is never counted twice |
| Accounting.NextFlushSettles | plugin/statis/prometheus/statis.go:338-358 | once all streams are closed, the next whole flush shows everything ever added |
| Accounting.FlushTakesAll | plugin/statis/prometheus/statis.go:445-502 | whatever streams do meanwhile, a flush exports everything that had been added when it took its snapshot, except what was held between the two locks of a giving back |
| Accounting.ExpiredEntriesGo | plugin/statis_api_obj_limit.go:583-589 | expired entries leave their collector and are in the dump that found them |
| Accounting.StepConserves | plugin/statis/prometheus/statis.go:463-502 | no atomic step creates or destroys an amount |
| Accounting.StepInv | plugin/statis_api_obj_limit.go:535-591 | every atomic step of streams and flusher keeps the whole invariant |
| Accounting.FlusherNeverStuck | plugin/statis/prometheus/statis.go:445-502 | whatever the streams do, the flusher has a next step |
| Accounting.BookedAsNamed | plugin/statis_api_obj_limit.go:548-563 | an amount is booked under the dimension it names if and only if its entry is new or was made with that dimension |
| Accounting.RecycledKeyRun | plugin/statis_api_obj_limit.go:548-563 | a run into an amount that is booked elsewhere |
| Accounting.LoggedExactlyOnce | plugin/statis/prometheus/statis.go:478-527 | exactly-once for the curve log too: added = handed to the log + collected for it + in the hand + in value objects |
| Accounting.LoggedStep | plugin/statis/prometheus/statis.go:480-500 | in every step the increments for the log add up to the aggregate, and those handed over to the metrics |
| MetricSeries.StaticsWorker.FlushMetrics | plugin/statis/prometheus/statis.go:503-521 | after every flush the live series are those with an increment in one of the last 30, total = pass + limit = increments since creation |
| MetricSeries.StaticsWorker.EvictStaleSeries | plugin/statis/prometheus/statis.go:431-442 | deletes the rows of exactly the dimensions silent for 30 flushes |
| MetricSeries.FlushKeepsRow | plugin/statis/prometheus/statis.go:503-521 | a flush keeps one dimension's row right through counting, eviction and re-creation |
| MetricSeries.Continues | plugin/statis/prometheus/statis.go:503-516 | an increment within the window continues the series |
| MetricSeries.Begins | plugin/statis/prometheus/statis.go:503-516 | an increment after a silent window starts a new one at zero |
| MetricSeries.AgeDecides | plugin/statis/prometheus/statis.go:432-435 | the age test decides recent activity |
| CurveDeltas.BuildRecordFromDeltas | plugin/statis/file/ratelimit_curve.go:200-233 | the record is the table of rows of its increments |
| CurveDeltas.RowsExact | plugin/statis/file/ratelimit_curve.go:200-233 | one row per distinct key, each the sum of its increments, none missing |
| CurveDeltas.FirstSeenOrder | plugin/statis/file/ratelimit_curve.go:217-225 | rows come in first-seen order with the tags of the first increment |
| CurveDeltas.RowTotalsExact | plugin/statis/file/ratelimit_curve.go:200-233 | the rows add up to all increments |
| CurveDeltas.LogAgreesExactly | plugin/statis/file/ratelimit_curve.go:200-233 | log and metrics show the same amounts per key and dimension if and only if every key has one dimension in the flush |
| CurveDeltas.RowDimsBalance | plugin/statis/file/ratelimit_curve.go:200-233 | for all increments, log and metrics differ in a dimension by exactly what is shown under another one |
| CurveDeltas.RowDimsExact | plugin/statis/file/ratelimit_curve.go:200-233 | with one dimension per key the log adds up to the metrics in every dimension |
| CurveDeltas.FlushSinks | plugin/statis/prometheus/statis.go:478-527 | one flush sends the same totals to both sinks, and the same per dimension up to exactly the increments shown under another one |
| CurveDeltas.AggregateDeltas | plugin/statis/prometheus/statis.go:484-500 | the aggregate holds each dimension's increments |
| CurveDeltas.RecycledKeyDiverges | plugin/statis/file/ratelimit_curve.go:215-225 | two increments for which the sinks differ |
| Accounting.DivergingFlush | plugin/statis/prometheus/statis.go:445-502 | a run of two streams and the flusher that collects them |
| CurveReport.RateLimitCurveReporter.BuildReportRecord | plugin/statis/file/ratelimit_curve.go:126-138 | stand-alone, after a record everything ever added has been printed, one line per key, with the tags of the first collector that has the key |
| CurveReport.RateLimitCurveReporter.MergeAllStatValues | plugin/statis/file/ratelimit_curve.go:141-164 | a curve pass collects every curve amount; a precision pass changes none and expires no entry, in both modes |
| CurveReport.RateLimitCurveReporter.ProcessCollector | plugin/statis/file/ratelimit_curve.go:75-123 | per key, what leaves a collector is what enters the merge |
| CurveReport.DrainStep | plugin/statis/file/ratelimit_curve.go:94-121 | clone or add, then subtract what was read: every value moves exactly its own amounts |
| CurveReport.CloneThenSubtract | plugin/statis/file/ratelimit_curve.go:102-120 | whatever streams add between clone and subtraction, what the merge gains the collector loses |
| CurveReport.PrecisionStep | plugin/statis/file/ratelimit_curve.go:64-72 | a precision amount waits for a full period; then its counter gains what the entry loses, and the curve stays |
| CurveReport.RateLimitCurveReporter.DropCollector | plugin/statis/file/ratelimit_curve.go:250-253 | giving a collector back moves its amounts and keeps the balance |
| CurveReport.RateLimitCurveReporter.Report | plugin/statis_api_obj_limit.go:548-563 | a report enters the balance once |
| CurveReport.RateLimitCurveReporter.PrintMerged | plugin/statis/file/ratelimit_curve.go:130-137 | what is printed for a key is what was merged for it |
| CurveReport.Collector.DumpAndExpire | plugin/statis_api_obj_limit.go:566-591 | the dump lists every entry once, expired ones included, and only those not updated for longer than their expiry leave |
| CasLoops.AcceptedIncrease | ratelimitv2/client.go:142-152 | in every interleaving accepted push timestamps strictly increase, and a refused one is not above the last accepted |
| CasLoops.MaximumExact | plugin/statis/prometheus/statis.go:312-328 | with take-outs at any moment, the greatest of register and reports is the greatest ever submitted |
| CasLoops.ReportsAreOfTheirPeriod | plugin/statis/prometheus/statis.go:363-368 | over every run, each report is the last and greatest value accepted since the report before it, and 0 if none was |
| CasLoops.SwapPeriod | plugin/statis/prometheus/statis.go:363-368 | from a swap to the next take-out, with all updates over at both: the greatest value submitted in between, or 0 |
| CasLoops.PeekPeriod | plugin/statis_api_obj_srv.go:105-125 | from a reading to the take-out after its reset: 0 or a value submitted since the reading, covering all submitted after the reset and all in between that exceed what was read |
| CasLoops.RegisterEndsAtMaximum | plugin/statis_api_obj_srv.go:110-120 | without take-outs the register ends at the maximum |
| CasLoops.MaxStep | plugin/statis_api_obj_srv.go:110-125 | no step loses or invents a value |
| CasLoops.FailureIsProgress | ratelimitv2/client.go:142-152 | a compare-and-swap fails exactly if another one succeeded since its load |
| CasLoops.LoopsEnd | plugin/statis_api_obj_srv.go:110-125 | in every run, take-outs and new updates included, the loads and swaps are at most the work at first and 2 * n for each of the other steps, n being the updates in all |
| CasLoops.FreshLoopsEnd | ratelimitv2/client.go:142-152 | left alone, n fresh updates end within n * n + n loads and swaps |
| CasLoops.WorkShrinks | plugin/statis_api_obj_srv.go:110-120 | the termination measure falls at every load and swap, failed ones included |
| CasLoops.FreshWork | ratelimitv2/client.go:142-152 | the work that n fresh updates start with |
| IoHang.WithDefaults | pkg/health/config.go:58-92 | positive times, explicit ones kept, staleness the greater of the wanted value and 2 * interval + timeout |
| IoHang.DefaultsSettle | pkg/health/config.go:58-92 | filling in twice is filling in once, and sound configurations are untouched |
| IoHang.NoFalseAlarm | pkg/health/iohang.go:130-220 | under every configuration timely probes never yield DOWN by inflight or staleness, even if the words are read at different moments |
| IoHang.TimelyVerdict | pkg/health/iohang.go:185-220 | a timely detector is DOWN exactly for a device error of its latest probe |
| IoHang.VerdictExact | pkg/health/iohang.go:185-220 | in every run, timely or not: DOWN if and only if a write has been in flight for longer than the timeout, or the latest write returned longer ago than the staleness or with a device error |
| IoHang.WordsTellHistory | pkg/health/iohang.go:159-176 | the words of the detector tell when its latest write began, returned, and with what |
| IoHang.StaleExactly | pkg/health/iohang.go:206-210 | with no late write, stale if and only if the latest completion is older than the configured staleness |
| IoHang.LeastStalenessExact | pkg/health/config.go:75-78 | timely runs are never reported stale if and only if staleness >= 2 * interval + min(timeout, 2 * interval), which is the floor for timeouts of up to two intervals |
| IoHang.FloorIsTight | pkg/health/iohang.go:206-210 | with anything less, a timely run that is reported stale |
| IoHang.HungWriteIsDown | pkg/health/iohang.go:130-140 | a write that never returns is DOWN at every moment past its timeout, and no second probe starts |
| IoHang.SilenceIsDown | pkg/health/iohang.go:185-220 | whatever stops the probes is DOWN once the last one is stale |
| IoHang.FirstResultIsConclusive | pkg/health/iohang.go:90-109 | the start-up wait ends with a verdict if the first write begins within a timeout, and only then when it runs to its end |
| IoHang.WaitCanEndWarm | pkg/health/iohang.go:90-109 | a run in which the wait ends and the verdict is still warming up |
| IoHang.NeverWarmAgain | pkg/health/iohang.go:90-109 | a verdict never turns back into warming up |
| ReRegister.AtMostOneLoop | bootstrap/registry.go:191-240 | in every interleaving of heartbeats, gate and loops the flag is 1 exactly while the only loop runs |
| ReRegister.DeferredRegistrationStarts | bootstrap/registry.go:381-394 | the gate's trigger always starts its loop |
| ReRegister.GateTriggers | bootstrap/registry.go:381-394 | without a cancellation, the gate of a node that is not ready is through exactly when it has triggered |
| ReRegister.CountersExact | bootstrap/registry.go:169-186 | the counters equal the NOT_FOUND answers and failures since the latest reset in the run |
| ReRegister.TriggerFollowsThree | bootstrap/registry.go:174-183 | a heartbeat asks for a loop only after at least 3 NOT_FOUND answers since the latest reset |
| ReRegister.SettledExactlyIfCompleted | bootstrap/registry.go:191-240 | at the trigger those answers are still outstanding if and only if no loop completed in between |
| ReRegister.SettledTrigger | bootstrap/registry.go:191-240 | a run in which one did |
| ReRegister.DelayExact | bootstrap/registry.go:245-262 | min(5s * 2^(count-1) + jitter, 60s) for every count >= 1, cut-off counts included; 0 exactly for the others |
| ReRegister.DelaysGrow | bootstrap/registry.go:245-262 | later tries never wait less, and from the fifth failure on 60s |
| ReRegister.BackoffAsDue | bootstrap/registry.go:204-218 | every try waits as the tries that failed since the latest success make due; the first does not wait |
| ReRegister.TriesCounted | bootstrap/registry.go:226-238 | the failures counted are exactly the tries that failed since the latest success |
| ReRegister.LoopEndsCompleted | bootstrap/registry.go:204-240 | in every run without a cancellation, a loop that ends has just completed a registration, and its latest try went well |
| ReRegister.FailureIsRetried | bootstrap/registry.go:226-233 | in every run without a cancellation, a failure that has not been retried has a loop that is on its way to a try |
| ReRegister.TryComesNearer | bootstrap/registry.go:207-226 | that loop can always go on, and every step it takes brings the try nearer |
| ReRegister.RegisteredExactly | bootstrap/registry.go:143-165 | heartbeats are sent exactly from the first registration on |

## Left out

- Interleavings inside `currentWindow`: it does not re-read the bucket under its mutex, so a second racer reloads with no time passed; each window call is one step here.
- The server clock going backwards: the reset it causes is taken into the code but nothing is claimed about the amounts then.
- Additions to a value object that was fetched before a drain and is added to after it: an addition is one step here.
- Conservation of precision amounts: collectors of closed streams may be discarded before a full period.
- The allocator inside `AcquireQuota`: the reply loop names the counter and use of each answer; what is left comes from `Occupy.OccupyAllocator.Allocate`, proved per call.
- WireKeys.Server.AcquireQuota: one step, where the code lets other streams and the cleaner act between two uses of a report.
- `GetCounter` in the middle of a critical section: it reads one slot without the mutex, and is proved for the moments between critical sections.
- `GetCounter` with key 0: every caller passes a key that unboxing accepted, so at least 1.
- CounterManagers.CounterManager.AllocateCounterKey: which counter events are logged is not modelled, nor is the list view of the table.
- Interruptions of calls that hold no mutex for their body: `Counter.Reload`, `OccupyAllocator.Allocate`, `PushMessage`, `CleanupSenders` between two clients, and the flush methods are proved for calls that run to their end; `Accounting`, `CasLoops`, `Lifecycle`, `IoHang` and `ReRegister` have the interleavings.
- CurveReport.RateLimitCurveReporter.BuildReportRecord: one step, where streams go on adding and dropping collectors during a pass; `CurveReport.CloneThenSubtract` covers additions between the clone and the subtraction of a value.
- CurveReport.RateLimitCurveReporter.MergeAllStatValues: the same.
- CurveReport.DrainStep: speaks of values that do not grow while their collector is drained, as the pass is one step.
- A start-up wait that ends early because its context is cancelled: no verdict is claimed then.
- The gauges of processing time: a maximum taken out in a period whose count was 0 is not shown; `CasLoops` speaks of the values taken out.
- The V1 protocol and its collectors, which count as the V2 ones do.
- Push queues and workers, the delivery order of pushes (only their acceptance order is guaranteed) and failures to send.
- Overflow of 64-bit durations and of the 32-bit re-registration counters, which would take centuries of failures.
- gRPC, HTTP, YAML, Prometheus and log libraries, tag texts, address parsing, pagination and events: foreign code or one-branch formatting.
- Wall-clock reads, random jitter and generated ids: they are parameters.
