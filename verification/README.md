# Model of fastly-log-analytics

This project models the parts of fastly-log-analytics in which a mistake would be silent: data
structures and protocols whose promises hold only if every step of every run keeps them. Each is
modelled in Dafny after the Python code, branch by branch, and its promises are proved for all
inputs, runs and interleavings. Where a promise turns out not to hold, the code is kept as it is, a
concrete input shows the failure, and the exact condition under which the code does keep the promise
is proved.

| modules | component |
|---|---|
| `Sketch`, `Keyed`, `Projections`, `OriginStore`, `OriginQuantiles`, `NetworkProjection`, `PerformanceProjection`, `ScatterWindow`, `OriginCounts`, `NetworkCounts`, `PerformanceCounts` | log-histogram sketches, minute projections, and the quantiles, samples, counts and sums read from them, said of the log rows |
| `Pool`, `PoolRuns`, `PoolOutcomes` | the DuckDB connection pool: its lock regions, all interleavings of them, and what a thread gets |
| `SqlTree`, `SqlValidator`, `SqlChecks`, `SqlMeaning`, `SqlScope`, `SqlTouch` | parse trees and what they say, the SQL validator, its checks of one node, a meaning for queries and what interferes with it, and lexical scope independent of the walk |
| `ConfigStore`, `ConfigRuns`, `ConfigWrites` | the service configuration store shared by threads and processes |
| `Beacons`, `Quarantine`, `RumIngest` | RUM beacon files and what they hold, their parsing, evidence of malformed lines, and the ingest loop that deletes raw objects |
| `Dashboard`, `DashboardSeries`, `DashboardEnd`, `TopValues`, `DashboardTop` | dashboard totals, series and top values from aggregates, against the facts |
| `ProcessTree`, `Terminate` | process-tree selection and signalling of the local stack |
| `Ledger`, `LedgerListing` | pagination of the ingest ledger over services |
| `Publisher`, `PublisherRuns` | the in-process publisher |
| `Filters`, `FilterMeaning` | the filter compiler, and what a filter asks for |
| `Wrappers`, `Text`, `Rounding`, `Counting`, `Sorting`, `Sums` | shared definitions and lemmas |

`dafny verify dfyconfig.toml` checks the whole project.

## What the proofs found

- Drain: `release` and `warm_idle` test the draining flag in an earlier step than the lock region that
  re-queues, so a connection can be put back into a draining pool. Safety holds, but that drain can only time out
  (`PoolRuns.DrainCompletesIff`, `PoolRuns.StuckDrain`).
- Bulkhead: with an override at or above the pool's size, or a pool of one, heavy requests can hold
  every connection (`PoolRuns.LightSlotGuaranteedIff`).
- Validator: of a `cte_map` only the queries of its entries are read, so the walk is exact for what it
  reads (`SqlScope.AcceptIff`) and complete for trees of the serialised shape (`SqlScope.NamesRead`), but a
  `cte_map` of another shape hides what it holds (`SqlScope.UnreadFails`). That input is outside what the parser
  yields: `_parse_single_select_node` refuses a tree without statements before the walk, and
  `json_serialize_sql` is not known to write a list there.
- Salt: agreement holds exactly for a file that exists, is not the empty object and holds no salt that is
  not text (`ConfigRuns.SaltAgreementIff`, with a run for each failure).
- Quarantine: the rescan needs no injective decoding; it raises exactly on an ambiguous file
  (`Quarantine.RescanRefines`). Captured evidence may be evicted again by the cap of a thousand, also
  within one object, so a deleted object's evidence is captured but not necessarily still held
  (`Quarantine.HeldIff`, `Quarantine.SelfEvicting`).
- Dashboard totals: with only an end bound the facts at the end are counted twice, and with both bounds a
  failed end query leaves them out (`Dashboard.TotalExactIff`, with `Dashboard.LoneEndTwice` and
  `Dashboard.FailedEndLeftOut`).
- Dashboard series: for 10, 15 and 30 minute charts the two paths use different buckets, a failed end query
  hides the last facts, and a lone bound is applied by the series but not by the total or the fact path
  (`DashboardSeries.SeriesAgreeIff`, `DashboardSeries.ShownSumsToTotalIff`). Under a lone end bound inside a minute
  the facts at the bound are drawn twice, which can just make up for facts left out after it
  (`DashboardEnd.LoneEndAgreeIff`).
- Scatter sample: each batch is cut to 300 before the reader selects its minutes, so a minute of a larger batch can
  lose its points (`ScatterWindow.WindowExactIff`, `ScatterWindow.MinuteHidden`).
- Dashboard top values: the table and the facts read a row's fields differently (nulls, containers, two
  address fields, rounded ages), so the bounds hold on all data only for url and country
  (`DashboardTop.AlwaysWithinIff`, `DashboardTop.MissingAge`).
- Process tree: roots on a cycle of parents are all dropped (`ProcessTree.PruningLosesNothingIff`), and
  a pid 0 listed below a target is signalled (`Terminate.PidZeroIff`, `Terminate.PidZeroSignalled`). `parse_ps`
  accepts such a row, but the kernels in use give pid 0, where `ps` lists it at all, no parent other than 0, and
  with such a table no pid below 2 is a target (`Terminate.TargetsSafe`).
- Ledger: `COALESCE` and `or` differ on a zero timestamp, and a row read differently can be cut away
  before the final sort (`Ledger.UntimelyRowLost`).
- Publisher: payloads arrive in order exactly with at most one publishing thread; any two can reorder them
  (`PublisherRuns.InOrderIff`, `PublisherRuns.TwoPublishersOutOfOrder`).

## Idealisations

- Floats are reals; the bucket index is given by its defining inequality, whose solution is proved to
  exist and be unique. Times are integers, in milliseconds where it matters; integers are unbounded.
- Text is handled as ASCII where the code folds case or tests for word characters; the database is
  taken to compare object keys by code point.
- A database query is the grouping, ordering and limit the code asks for, on sequences of rows.
- Clocks, deadlines, network replies, parse outcomes, faults and hashes are parameters or functions
  left open, so the statements hold for all of them.
- The configuration store assumes a lock that is not degraded, a writable file system and a fresh
  modification time for each write. Rotation of the salt is not a step,
  and the file is never deleted.
- A failed evidence capture is taken to remove its own row and file.
- The aggregate table is what the builder publishes for visible batches; rows without a readable
  timestamp are in neither path.

## Model

| member | source | states |
|---|---|---|
| `Sketch.Index` | backend/high_scale/_common.py:33-34 | The bucket index exists for every positive value and satisfies its defining inequality: the value lies above GAMMA to the power i-1 and at or below GAMMA to the power i. |
| `Sketch.IndexUnique` | backend/high_scale/_common.py:33-34 | A value lies in one bucket only. |
| `Sketch.CentroidError` | backend/high_scale/_common.py:31-35 | Every representative, for positive, zero and negative values, is within (GAMMA-1)/(GAMMA+1) of its value and keeps its sign. |
| `Sketch.ErrorBoundTight` | backend/high_scale/_common.py:26-35 | The advertised relative error is attained at the top of every bucket, so no smaller bound holds. |
| `Sketch.CentroidMonotone` | backend/high_scale/_common.py:31-35 | Taking representatives never swaps two values. |
| `Sketch.SketchExpands` | backend/high_scale/_common.py:38-42 | A sketch expands to exactly the representatives of its values, each as often as it occurred; the weights sum to the number of values. |
| `Sketch.SketchKeys` | backend/high_scale/_common.py:38-42 | The stored centroids are strictly ascending, each count is positive and is how often its centroid represents a value. |
| `Sketch.SketchOrderless` | backend/high_scale/_common.py:38-42 | Two lists with the same values in different orders have the same sketch. |
| `Sketch.MergedSorted` | backend/high_scale/origin.py:103-110 | Sorting the union of the sketches of any list of minutes gives the representatives of the sorted raw values, position by position. |
| `Sketch.MergedQuantileError` | backend/high_scale/origin.py:61-65 | For any list of per-minute lists and any rank, the value read from the merged sketches is within the advertised relative error of the raw value of that rank, and the merged weights count every raw value once. |
| `Sketch.Percentile` | backend/high_scale/_common.py:128-135 | One level of `percentiles` is the interpolated order statistic at rank (n-1)q. |
| `Sketch.Percentiles` | backend/high_scale/_common.py:122-136 | One answer per level, none at all without values, each read from the sorted values. |
| `Sketch.AtBetween` | backend/high_scale/_common.py:129-135 | An interpolated percentile lies between the order statistics on either side of its rank. |
| `Sketch.InterpolatedMonotone` | backend/high_scale/_common.py:122-136 | A higher level never gives a smaller percentile. |
| `Sketch.InterpolatedIs` | backend/high_scale/_common.py:122-136 | At the level that stands a fraction t of the way between two neighbouring ranks, the percentile is that fraction of the way between the two values; levels 0, 1 and k/(n-1) give values of the list. |
| `Keyed.MergeAllIsProject` | backend/high_scale/origin.py:597-637 | Projecting batches one by one and merging them key by key is projecting their concatenation. |
| `Keyed.PutIs` | backend/high_scale/origin.py:597-637 | Updating an accumulator in place, springing up on first use, keeps the dictionary the projection of all contributions so far. |
| `Keyed.BatchesMerge` | backend/high_scale/origin.py:597-637 | The same for rows cut into batches in any way and arriving in any order, when accumulators add commutatively. |
| `Keyed.StoredMerge` | backend/high_scale/origin.py:671-727 | The same for what is stored of the accumulators, under any view that respects addition: merging the stored rows of the batches gives the stored rows of one batch of all rows. |
| `Projections.SummarySound` | backend/high_scale/origin.py:640-658 | In every minute summary requests equals the number of latencies, 5xx counts never exceed statuses, misses and passes together never exceed requests, and overhead values never outnumber last-byte times. |
| `Projections.AddLatencyMetrics` | backend/high_scale/origin.py:640-658 | The field-by-field update of a summary adds just the row's contribution. |
| `Projections.AddDimensionMetrics` | backend/high_scale/origin.py:661-668 | The field-by-field update of a dimension adds just the row's contribution. |
| `Projections.UpdateDimensions` | backend/high_scale/origin.py:612-629 | The branches for status, url, pop, edge and origin address update in place exactly the accumulators the row contributes to. |
| `Projections.BuildOrigin` | backend/high_scale/origin.py:597-637 | The loop over the rows, two dictionaries updated in place, yields for every minute and for every dimension key the sum of what the rows contribute. |
| `OriginStore.SketchConcat` | backend/high_scale/_common.py:38-42 | Sketching loses the values but not the union: the pooled sketches of two lists are the sketch of both. |
| `OriginStore.OriginBatches` | backend/high_scale/origin.py:671-727 | However origin rows are cut and ordered, the counters and the four sketches read from all batches, for every minute and every dimension key, are those a single batch of all rows stores. |
| `OriginQuantiles.ListExact` | backend/high_scale/origin.py:640-668 | The accumulator of a minute holds exactly the measured values of that minute's rows, in row order. |
| `OriginQuantiles.WindowCovers` | backend/high_scale/origin.py:103-110 | The lists behind the stored sketches of a window, over all batches and minutes, are the window's values, each once. |
| `OriginQuantiles.WindowMerge` | backend/high_scale/origin.py:103-110 | What a reader gets from the stored rows of a window is the union of the sketches of those lists. |
| `OriginQuantiles.SummaryQuantile` | backend/high_scale/origin.py:597-747 | End to end, for any batching: every quantile of latency (the origin's time to first byte, or else the client's in microseconds), last byte, overhead or size read from the stored minute sketches of a window is within the advertised error of that quantile of the rows' own fields, and the weights count them. |
| `OriginQuantiles.DimensionQuantile` | backend/high_scale/origin.py:711-747 | The same for the latencies under any value of any dimension. |
| `OriginCounts.MinutesRead` | backend/high_scale/origin.py:597-708 | Said of the log rows alone, for any batches: a reader finds a minute exactly if one of its requests has a time to first byte; its requests, misses, passes, 5xx, statuses and bytes are the counts and the sum over those requests, and its four weighted lists the representatives of their latencies, last-byte times, overheads and sizes. |
| `OriginCounts.ValuesRead` | backend/high_scale/origin.py:612-629 | Said of the log rows alone, for any batches: a reader finds a value of status, url, pop, edge or origin address exactly if a request counts there, and its requests, 5xx and bytes are the counts and the sum over those requests. |
| `NetworkProjection.Update` | backend/high_scale/network.py:820-831 | The field-by-field update of an accumulator adds just the row's contribution: only positive times are listed, and loss is summed where present. |
| `NetworkProjection.BuildNetwork` | backend/high_scale/network.py:795-817 | The loop over the rows, one dictionary updated in place, yields for every minute, dimension, value and speed the sum of what the rows contribute. |
| `NetworkProjection.NetworkBatches` | backend/high_scale/network.py:834-855 | However rows are cut and ordered, adding up the stored counts and sums, absent ones ignored, gives the row a single batch of all rows stores. |
| `NetworkCounts.SlotsRead` | backend/high_scale/network.py:795-855 | Said of the log rows alone, for any batches: a reader finds a country, network and speed, pop or region exactly if a request has it, and the stored requests, errors, round-trip and loss counts and sums are those of these requests, a sum being absent without a summand. |
| `PerformanceProjection.AddWaterfallAndScatter` | backend/high_scale/performance.py:122-160 | One row adds its time parts to the sums of its minute, and a candidate exactly if it is eligible. |
| `PerformanceProjection.BuildPerformance` | backend/high_scale/performance.py:82-119 | One loop fills two dictionaries in place and the list of candidates: sums per minute, requests and latencies per dimension, candidates in row order. |
| `PerformanceProjection.DimensionBatches` | backend/high_scale/performance.py:179-192 | However rows are cut and ordered, adding up the stored request counts, latency counts and latency sums gives the row a single batch of all rows stores. |
| `PerformanceProjection.CandidatesExact` | backend/high_scale/performance.py:130-160 | A candidate tells the minute, the milliseconds to the first byte and from there to the end of exactly one row; every row with both times and no negative rest gives one, in row order. |
| `PerformanceProjection.WaterfallBatches` | backend/high_scale/performance.py:82-143 | Waterfall sums merge across batches to the sums of all rows, in any cut and order. |
| `PerformanceCounts.WaterfallRead` | backend/high_scale/performance.py:122-143 | Said of the log rows alone, for any batches: the sums of a minute are the edge, wait, download and client parts of the times of its requests, each part read off the row's own times. |
| `PerformanceCounts.SlotsRead` | backend/high_scale/performance.py:82-192 | Said of the log rows alone, for any batches: a reader finds a url, network or bot exactly if a request has it, and the stored requests, latency count and latency sum are those of these requests. |
| `PerformanceProjection.ScatterExact` | backend/high_scale/performance.py:116-118 | For a read without bounds: with distinct sample keys, the 300 smallest of the per-batch samples are the 300 smallest of all candidates. |
| `ScatterWindow.WindowExactIff` | backend/high_scale/performance.py:350-370 | For a read of any set of minutes and candidates in any batches: under all distinct keys the reader gets the 300 smallest candidates of those minutes, exactly if every batch has at most 300 candidates, or lies wholly in those minutes, or wholly outside them. |
| `ScatterWindow.ShownWhole` | backend/high_scale/performance.py:350-370 | Where every batch is such, the window's part of the stored samples, ordered by key and cut, is the sample of the window's candidates, for the keys at hand. |
| `ScatterWindow.MinuteHidden` | backend/high_scale/performance.py:116-118 | One batch with 300 candidates in one minute and one with a larger key in the next: a read of the next minute shows nothing. |
| `Pool.HeavyCap` | backend/core/duckdb_pool.py:76-84 | The heavy cap is between one and the pool's size. |
| `Pool.HeavyCapLeavesRoom` | backend/core/duckdb_pool.py:76-84 | The cap is below the pool's size exactly for pools of two or more whose override, if set, is below that size. |
| `Pool.ConnectionPool.TryAdmit` | backend/core/duckdb_pool.py:262-297 | One pass of the admission loop: reuse, reserve, refuse or wait, with the counters each outcome moves. |
| `PoolOutcomes.ReusesIff` | backend/core/duckdb_pool.py:275-280 | A thread that wants a connection gets the newest idle one exactly if the pool is not draining and has one, whatever its flags. |
| `PoolOutcomes.BuildsIff` | backend/core/duckdb_pool.py:287-290 | It starts a build exactly if nothing is idle, it is not bound to reuse, the pool is not draining and a slot is free; the slot is counted at once. |
| `PoolOutcomes.RefusedIff` | backend/core/duckdb_pool.py:264-297 | It is refused exactly if it wanted only an idle connection and none is to be had, or its time is up while the pool is draining or full. |
| `PoolOutcomes.WaitsIff` | backend/core/duckdb_pool.py:264-297 | In every other case it waits and nothing changes. |
| `PoolOutcomes.FullMeansHeld` | backend/core/duckdb_pool.py:287-297 | In a run a pool without an idle connection and without a free slot has every slot held by other threads. |
| `PoolOutcomes.RequeueLetsIn` | backend/core/duckdb_pool.py:376-380 | In every reachable state: when a thread re-queues its connection, a waiting thread that tries next gets that connection. |
| `PoolOutcomes.DiscardLetsIn` | backend/core/duckdb_pool.py:388-394 | In every reachable state: when a thread of a full pool has closed its connection, a waiting thread that tries next may build. |
| `PoolOutcomes.ReleasedIff` | backend/core/duckdb_pool.py:355-359 | A connection in use is discarded exactly if its use failed or the pool is draining, and otherwise on its way back. |
| `PoolOutcomes.RequeuedLast` | backend/core/duckdb_pool.py:376-380 | In every reachable state a connection on its way back becomes the newest idle one. |
| `PoolOutcomes.RejectedWhenFull` | backend/core/duckdb_pool.py:376-386 | Were the queue full, the connection would be closed instead. |
| `PoolOutcomes.DiscardedInTwo` | backend/core/duckdb_pool.py:388-394 | A discarded connection is closed first and its slot freed after. |
| `PoolOutcomes.BuildsOrGivesBack` | backend/core/duckdb_pool.py:325-353 | A build opens a connection nobody has, or gives its slot back. |
| `PoolOutcomes.Refreshed` | backend/core/duckdb_pool.py:306-323 | A reused connection is handed out if its refresh succeeds and discarded if not. |
| `PoolOutcomes.HeavyPermit` | backend/core/duckdb_pool.py:219-234 | A heavy request takes a permit before it may try and returns it when it leaves. |
| `PoolOutcomes.HeavyCapIs` | backend/core/duckdb_pool.py:76-84 | The cap is the override held between one and the size, or one less than the size, at least one. |
| `PoolOutcomes.DrainEdges` | backend/core/duckdb_pool.py:410-439 | The start of a drain closes the idle connections and no others and sets the flag; its end only clears the flag. |
| `PoolOutcomes.WarmTakes` | backend/core/duckdb_pool.py:494-502 | Warming takes all idle connections, newest first, unless the pool is draining or has none. |
| `PoolOutcomes.WarmReturns` | backend/core/duckdb_pool.py:521-529 | In every reachable state all warmed connections come back, behind what became idle meanwhile. |
| `Pool.ConnectionPool.Requeue` | backend/core/duckdb_pool.py:376-386 | The re-queue of a returned connection and when it finds the queue full. |
| `Pool.ConnectionPool.CountDiscard` | backend/core/duckdb_pool.py:388-394 | A discarded connection is uncounted. |
| `Pool.ConnectionPool.DrainIdleLocked` | backend/core/duckdb_pool.py:396-408 | Every idle connection is closed, newest first, and uncounted. |
| `Pool.ConnectionPool.StartDrain` | backend/core/duckdb_pool.py:410-415 | A drain sets the flag and drops the idle connections in one lock region. |
| `Pool.ConnectionPool.StopDrain` | backend/core/duckdb_pool.py:428-432 | Ending a drain clears the flag and nothing else. |
| `Pool.ConnectionPool.TakeIdle` | backend/core/duckdb_pool.py:494-502 | Warming takes all idle connections, unless draining. |
| `Pool.ConnectionPool.ReturnIdle` | backend/core/duckdb_pool.py:521-529 | Warmed connections are re-queued as far as they fit and the rest closed and uncounted. |
| `PoolRuns.StepInv` | backend/core/duckdb_pool.py:249-432 | Every lock region and every out-of-lock step, of any number of threads, keeps the accounting invariant. |
| `PoolRuns.Conservation` | backend/core/duckdb_pool.py:249-408 | In every reachable state the in-use count equals idle plus checked out plus building plus warming plus closing and is at most the size; every open connection has exactly one owner and no other has any; heavy permits are free or held. |
| `PoolRuns.QueueNeverFull` | backend/core/duckdb_pool.py:355-386 | A returned or warmed connection always finds room in the idle queue. |
| `PoolRuns.BulkheadHolds` | backend/core/duckdb_pool.py:219-234 | In every reachable state heavy requests hold at most the heavy cap of connections. |
| `PoolRuns.LightSlotGuaranteedIff` | backend/core/duckdb_pool.py:634-689 | In all runs at least one slot is not held by a heavy request, exactly when the pool has two or more slots and the override, if set, is below its size; otherwise some run fills the pool with heavy requests. |
| `PoolRuns.DrainMonotone` | backend/core/duckdb_pool.py:262-297 | While draining no step raises the in-use count, and only the end of the drain clears the flag. |
| `PoolRuns.DrainedMeansClosed` | backend/core/duckdb_pool.py:417-426 | When the in-use count reads zero no connection is open or idle and nothing is being built. |
| `PoolRuns.DrainSafety` | backend/core/duckdb_pool.py:349-432 | Over every interleaving: once a drain has been found complete, nothing of the pool is open until the drain ends. |
| `PoolRuns.DrainCompletesIff` | backend/core/duckdb_pool.py:355-432 | With every thread gone, a drain has completed exactly if no thread had passed the draining test before the drain began; such a thread re-queues its connection into the draining pool. |
| `PoolRuns.StuckDrain` | backend/core/duckdb_pool.py:355-386 | A reachable state with a draining pool, an open idle connection and no thread inside: waiting for that drain can only time out. |
| `SqlValidator.WalkAndValidate` | backend/core/sql_validator.py:327-373 | The walk with its loop over common table expressions returns the verdict of the recursive definition, in the same order of checks. |
| `SqlChecks.NodeAcceptIff` | backend/core/sql_validator.py:235-324 | The checks accept a node exactly if the table it names is text, is no path, has no blocked prefix, schema or catalog and is nameless, allowed or a bare name in scope, and the function it calls is none of the sealed ones, has no sealed prefix and, as a table function, is one of seven. |
| `SqlChecks.BoundAccepted` | backend/core/sql_validator.py:312-324 | A bare reference to a common table expression in scope is accepted whatever tables are allowed. |
| `SqlChecks.FunctionReason` | backend/core/sql_validator.py:235-264 | A refused call is refused for the first of the three reasons that applies. |
| `SqlChecks.TableReason` | backend/core/sql_validator.py:267-324 | A refused table is refused for a reason that applies to it, a path first. |
| `SqlMeaning.NonInterference` | backend/core/sql_validator.py:267-373 | A query accepted for a set of tables means the same in any two worlds that agree on those tables and on the functions it may call, at any depth, recursive expressions included. What a query reads is told by the tree alone: a table wherever a node is a base table or has a table name, a function wherever its class is FUNCTION. |
| `SqlTouch.Interferes` | backend/core/sql_validator.py:235-324 | Non-interference is tight: a table or function that is not open to a query and is read at any position outside its common table expressions gives two worlds that agree on all that is open and in which the query means different things. |
| `SqlScope.AcceptedEverywhere` | backend/core/sql_validator.py:327-373 | In an accepted tree every position that is read passes its check in the scope read off its path alone. |
| `SqlScope.AcceptIff` | backend/core/sql_validator.py:267-373 | For every tree with unique keys: the walk accepts it exactly if every position is in order in its own lexical scope, both told by the tree alone; positions inside a `cte_map` that are not in an entry's query are excepted. |
| `SqlScope.AcceptAnythingIff` | backend/core/sql_validator.py:327-373 | Without a set of tables the walk accepts a tree exactly if every object in it is in order, whatever table it names. |
| `SqlScope.AllowedAtEveryDepth` | backend/core/sql_validator.py:312-324 | In an accepted tree of the serialised shape every table named at any depth is bound by a common table expression in scope there or is in the allowed set. |
| `SqlScope.CallableAtEveryDepth` | backend/core/sql_validator.py:235-264 | In an accepted tree of the serialised shape every function called at any depth is one the query may call. |
| `SqlScope.NamesRead` | backend/core/sql_validator.py:337-368 | In a tree of the serialised shape the walk reads every position that names a table or a function. |
| `SqlScope.OwnExpressionAccepted` | backend/core/sql_validator.py:337-360 | A query that reads only its own common table expression is accepted although no table is allowed. |
| `SqlScope.UnreadFails` | backend/core/sql_validator.py:337-368 | The walk by itself: a tree it accepts with a forbidden table at a position it does not read, under a `cte_map` that is a list. `_parse_single_select_node` lets no such tree through. |
| `ConfigStore.CommitKeepsSalt` | backend/config.py:451-496 | No write, whatever it was handed, changes a persisted salt, and every write leaves a salt. |
| `ConfigStore.CommitStores` | backend/config.py:451-520 | A write stores the configuration handed in, the file as the mutator leaves it, or the file as it is, dated if it was not, with the persisted salt, or else the given one, or else a new one. |
| `ConfigStore.CommitKeepsRest` | backend/config.py:451-520 | Field by field: a save keeps what the caller handed in, a mutation what the mutator made of the file, apart from the salt and an absent creation time. |
| `ConfigStore.ThreadLocks.Enter` | backend/config.py:393-428 | Only the outermost entry of a thread takes the file lock of a service. |
| `ConfigStore.ThreadLocks.Exit` | backend/config.py:393-428 | Only the exit that matches the outermost entry frees it; nested exits leave it held. |
| `ConfigRuns.StepInv` | backend/config.py:302-520 | Every step of loading, locking, writing and cache dropping, of threads in any number of processes, keeps the store's invariant. |
| `ConfigRuns.LoadsAreCoherent` | backend/config.py:302-350 | A load returns content the file had at some moment between the start of the call and its return, though it takes no lock and may answer from the cache. |
| `ConfigRuns.LoadWindow` | backend/config.py:302-350 | Followed from its start through any run: a load returns content the file had at some moment between its start and its return. |
| `ConfigRuns.OneWriter` | backend/config.py:393-428 | Two threads are never inside the lock of a service at once. |
| `ConfigRuns.NoLostUpdate` | backend/config.py:498-520 | At every moment of every run the file is what the committed jobs store one after another in lock order, each said in the job's own terms. |
| `ConfigWrites.EditsAddUp` | backend/config.py:502-520 | After any run of mutators that edit the other fields, these are the edits applied one after another in the order of the commits: none is lost and none is applied twice. |
| `ConfigWrites.AcknowledgedIsWritten` | backend/config.py:498-520 | A job followed from its start through any run: if it returns a configuration, it was committed since, applied to the version just before, and the file then was what it returned; if it returns nothing, it is a mutation and the file was missing at some moment since. |
| `ConfigWrites.SaltCallReturns` | backend/core/duckdb.py:893-924 | A call for the salt followed from its start through any run returns a salt or its process's own; for a configured service it returns the salt the file then holds. |
| `ConfigRuns.SaltNeverChanges` | backend/config.py:438-496 | Over every run a persisted salt is never replaced. |
| `ConfigRuns.SaltAgreement` | backend/core/duckdb.py:893-924 | For a configured service, over every run of any threads and processes whose writers introduce no salt that is not text, all calls that returned a salt returned the one that is persisted, and none fell back to a salt of its own process. |
| `ConfigRuns.NoSaltToAgreeOn` | backend/core/duckdb.py:899-924 | A run on a missing file, and one on an empty object, in which a call falls back to its process's own salt. |
| `ConfigRuns.NonTextReplaced` | backend/config.py:438-496 | A run in which a salt that is not text is handed out and then replaced by another process's save. |
| `ConfigRuns.SaltAgreementIff` | backend/core/duckdb.py:893-924 | Agreement holds over all such runs exactly if the file exists, is not the empty object and holds no salt that is not text. |
| `Quarantine.ParseFile` | backend/core/rum_ingest.py:432-482 | Parsing a beacon file yields, in line order, the vitals and errors of every line that is not blank and parses to rows, and a record and a complaint for each faulty line. |
| `Quarantine.ClassifyIs` | backend/core/rum_ingest.py:444-477 | A line is faulty exactly if it is not blank and is no JSON, is refused by the parser, or parses to no rows at all, with the reason told by the parser's message; it is skipped exactly if the parser ignores it. |
| `Quarantine.FileMeans` | backend/core/rum_ingest.py:432-482 | Rows and records of a file, said of its lines and the decoder alone. |
| `Quarantine.ItemsAre` | backend/core/rum_ingest.py:518-531 | The items captured for a file are its faulty lines, each with key, number, place, bytes, reason and category. |
| `Quarantine.LinesAccounted` | backend/core/rum_ingest.py:432-482 | Every line is exactly one of blank, malformed, skipped and row-producing: the four counts add up to the lines, and complaints are one per malformed line. |
| `Quarantine.RowsAccounted` | backend/core/rum_ingest.py:432-482 | Each row-producing line yields a row, and without one there are none. |
| `Quarantine.RecordSound` | backend/core/rum_ingest.py:441-474 | Every record is of a malformed line: its ordinal, its raw bytes, the byte offset of its start and its reason. |
| `Quarantine.RecordsOrdered` | backend/core/rum_ingest.py:441-474 | Records come in file order, so no line has two. |
| `Quarantine.RecordFound` | backend/core/rum_ingest.py:441-474 | Every malformed line has a record. |
| `Quarantine.BytesAtOffset` | backend/core/rum_ingest.py:439-443 | A record's offset and length cut its raw bytes out of the whole file. |
| `Quarantine.CategoryKnown` | backend/core/rum_ingest.py:447-474 | Whatever the exception text, the error category is determined by the verdict and is one of five. |
| `Quarantine.RescanRefines` | backend/core/rum_ingest.py:537-562 | The rescan raises exactly when a line that is not malformed decodes like one that is, and otherwise yields precisely the records set aside while parsing. |
| `Quarantine.Precollected.Store` | backend/core/rum_ingest.py:478-481 | Evidence set aside is bounded at 64 entries, the oldest going first. |
| `Quarantine.Precollected.Pop` | backend/core/rum_ingest.py:500-507 | Asking for set-aside evidence removes it and returns that entry or none. |
| `Quarantine.Evidence.Capture` | backend/core/metadata/quarantine_evidence.py:295-396 | A capture stores the item and evicts the oldest beyond the cap, or fails and takes its item back, possibly after the file of the oldest was removed; the rows are always the newest thousand captured. |
| `Quarantine.CaptureAll` | backend/core/rum_ingest.py:520-533 | Every record is offered once, in order; those that did not fail are in the store, and failures count the others. |
| `Quarantine.RescanFile` | backend/core/rum_ingest.py:535-562 | The loop of the rescan does what its definition says and leaves the captures made before a raise. |
| `Quarantine.QuarantineLines` | backend/core/rum_ingest.py:488-571 | Whichever path is taken, a return means the file's own evidence was offered and failures count what was not stored; a key outside the raw prefix counts every line as failed; it raises exactly when the evidence was dropped and the file is ambiguous. |
| `Quarantine.NoFailureMeansCaptured` | backend/core/ingest/parser.py:93-98 | No failure counted is the same as every record captured. |
| `Quarantine.HeldIff` | backend/core/metadata/quarantine_evidence.py:364-369 | A captured item can be read back exactly if fewer than a thousand were captured after it and its file was not removed by an eviction that failed. |
| `Quarantine.OwnEvidence` | backend/core/metadata/quarantine_evidence.py:364-369 | An object with more malformed lines than the cap evicts its own: its j-th record is held exactly if at most a thousand of its records remain from there on. |
| `Quarantine.SelfEvicting` | backend/core/metadata/quarantine_evidence.py:364-369 | Such an object is captured without a failure, and the evidence of its first line is gone. |
| `Quarantine.ThousandAndOneLines` | backend/core/metadata/quarantine_evidence.py:364-369 | A file of 1001 malformed lines for which that happens. |
| `RumIngest.ResolveDelete` | backend/config.py:965-979 | Raw objects are kept exactly if the source is shared, the caller says no, or the caller is silent and the settings say no. |
| `RumIngest.Ingest` | backend/core/rum_ingest.py:866-921 | Reading one object yields the rows its lines hold; a capture failure only for an object with faulty lines and only if the store has a fault, the key is not a raw one or the file is ambiguous; otherwise the object is parsed and its evidence captured. |
| `RumIngest.ReadChunk` | backend/core/rum_ingest.py:849-921 | After a chunk was read every object of it is settled, and exactly those not downloaded or not readable are among the failed. |
| `RumIngest.SaveBoth` | backend/core/rum_ingest.py:923-932 | With both buffers written, every object of the chunk is secured or excluded from deletion. |
| `RumIngest.Chunk` | backend/core/rum_ingest.py:849-950 | The failed set gains just the objects that did not arrive or could not be read; unless a write fails, every object of the chunk is among the failures, or secured and, if raw objects are to go, its deletion asked for. |
| `RumIngest.IngestAll` | backend/core/rum_ingest.py:829-950 | Over every sequence of faults: nothing is removed before it was parsed, its rows are in both buffers and its evidence captured. The run stops early only on a failed write or a used-up budget at a multiple of fifty; every object before that is among the failures, or secured and asked away if raw objects are to go; the failed ones are exactly those that did not arrive with their chunk or could not be read, and a capture fails only if something stands in its way. |
| `RumIngest.NoLossEarlier` | backend/core/rum_ingest.py:829-950 | The guarantee at the end of a run holds at every earlier point of it. |
| `RumIngest.DeletableMembers` | backend/core/rum_ingest.py:934-940 | The objects asked to be deleted are those under the bucket prefix and not excluded. |
| `Dashboard.CountDimensions` | backend/high_scale/ingest_controller/service.py:354-369 | The aggregate builder counts every fact once for each dimension, keyed by value and minute. |
| `Dashboard.TableSum` | backend/high_scale/aggregate_query.py:222-231 | Summing one dimension of the published aggregates under any condition on value and minute counts the facts that meet it. |
| `Dashboard.MinuteIs` | backend/high_scale/_common.py:77-88 | The minute of a time is the last whole minute up to it. |
| `Dashboard.ValueIs` | backend/high_scale/ingest_controller/service.py:354-369 | What the table counts a row under: the text of the field, nothing if the row lacks it, the word None if it is null; the client's address is the row's ip. |
| `Dashboard.TotalExactIff` | backend/high_scale/dashboard.py:426-461 | For bounds given or open, whole minutes if both are given, the fast total is the fact path's count exactly if there is no end bound, or the end query succeeded with a start bound or failed without one, or the window is empty, or no fact lies at the end. |
| `Dashboard.LoneEndTwice` | backend/high_scale/dashboard.py:426-461 | One request at a lone end bound: the total is two. |
| `Dashboard.FailedEndLeftOut` | backend/high_scale/dashboard.py:426-461 | One request at the end of a window whose end query failed: the total is zero. |
| `DashboardSeries.CalendarIsFloor` | backend/high_scale/dashboard.py:464-474 | Replacing calendar fields rounds a UTC time down to a multiple of the bucket width. |
| `DashboardSeries.TableIsBase` | backend/high_scale/dashboard.py:213-247 | The table's weight of a chart bucket is the number of facts of the window that fall in it. |
| `DashboardSeries.MergeEnd` | backend/high_scale/dashboard.py:651-664 | The merge loop adds the end count to the matching bucket or appends a new one. |
| `DashboardSeries.SeriesExists` | backend/high_scale/dashboard.py:213-247 | The grouped and ordered query has an answer on all facts, so no statement about answers is empty. |
| `DashboardSeries.ShownSeries` | backend/high_scale/dashboard.py:647-664 | For every interval, bounds and outcome of the end query the shown series stays sorted and gains exactly the facts read for the end. |
| `DashboardSeries.ShownSum` | backend/high_scale/dashboard.py:647-664 | The shown series sums to the facts in the table's window plus those read for the end. |
| `DashboardSeries.ShownSumsToTotalIff` | backend/high_scale/dashboard.py:600-664 | It sums to the shown total exactly if both bounds are given or no fact lies outside a lone one. |
| `DashboardSeries.SeriesEqualIff` | backend/high_scale/dashboard.py:278-313 | Two series over the same facts, one of fewer facts and rounded further down, are equal exactly if it leaves none out and rounds none differently. |
| `DashboardSeries.SeriesAgreeIff` | backend/high_scale/dashboard.py:213-247 | On all data and bounds with a whole-minute end: the series read from the published table and patched is the series of the facts exactly if nothing asked for is hidden (by a failed end query, or by a lone bound) and the interval is not 10, 15 or 30 minutes or no counted fact lies past the first minute of its bucket. |
| `DashboardSeries.LonePartialEnd` | backend/high_scale/dashboard.py:426-461 | A lone end bound inside a minute fails on some fact for every interval: read, it counts a fact twice, not read, it hides the next minute. |
| `DashboardEnd.LoneEndAgreeIff` | backend/high_scale/dashboard.py:426-461 | On all data under a lone end bound, anywhere in a minute: the shown series is the series of the facts exactly if the facts past the table's window are as many as those read at the bound and all lie in the bucket these are added to, and the interval is not 10, 15 or 30 minutes or no counted fact lies past the first minute of its bucket. |
| `DashboardSeries.WideBucketsDiffer` | backend/high_scale/dashboard.py:464-474 | One request in the second minute of a 10, 15 or 30 minute bucket is shown in a different bucket by the two paths. |
| `DashboardSeries.FailedEndHidden` | backend/high_scale/dashboard.py:444-450 | With a failed end query a request at the end is missing on every interval. |
| `TopValues.MergeTop` | backend/high_scale/dashboard.py:477-489 | The merge counts the non-empty end values onto the base list and cuts the result in order of count, then value. |
| `TopValues.TopFacts` | backend/high_scale/aggregate_query.py:226-231 | A cut list is sorted by count and value, and whatever it leaves out comes after all it keeps. |
| `DashboardTop.AgreesIff` | backend/high_scale/dashboard.py:258-264 | For every row that becomes a fact, exactly when the table's reading of a field and the fact path's are the same. |
| `DashboardTop.ReadingIs` | backend/high_scale/dashboard.py:258-264 | What the fact path reads of a row, field by field. |
| `DashboardTop.TableCounts` | backend/high_scale/aggregate_query.py:222-231 | The table's grouped count of a value is the number of facts in the window whose row reads so. |
| `DashboardTop.TopWithin` | backend/high_scale/dashboard.py:477-489 | Where the two readings agree on the counted facts and the end facts are counted once: no non-empty value is reported more often than the fact path counts it, counts are exact if the value was in the table's list or that list was not full, otherwise short by at most its smallest count; a value left out occurs at most as often as the last one reported, up to that count. |
| `DashboardTop.AlwaysWithinIff` | backend/high_scale/dashboard.py:603-627 | That holds for all facts exactly for url and country (or a window that leaves the table nothing to count), with the end facts counted once. |
| `DashboardTop.MissingAge` | backend/high_scale/dashboard.py:258-264 | Two rows without an age, one at the end: the list shows one zero where the fact path counts two. |
| `ProcessTree.Ancestors` | scripts/local_stack_processes.py:96-104 | The ancestor loop returns pid 1 and every pid above 1 on the way up, on any table, cyclic ones included. |
| `ProcessTree.Descendants` | scripts/local_stack_processes.py:107-114 | The growing selection ends with the usable roots and everything below them that no excluded pid cuts off. |
| `ProcessTree.PruneRoots` | scripts/local_stack_processes.py:215-220 | The final filter keeps the roots that have no other usable root above them. |
| `ProcessTree.PrunedAntichain` | scripts/local_stack_processes.py:215-220 | No kept root lies above another. |
| `ProcessTree.RootCovered` | scripts/local_stack_processes.py:215-220 | Off cycles every root has a kept root at or above it, with nothing excluded in between. |
| `ProcessTree.OwnAncestorsUpwardClosed` | scripts/local_stack_processes.py:96-104 | The set of the caller's ancestors contains the parents of its members. |
| `ProcessTree.PruningLosesNothingIff` | scripts/local_stack_processes.py:213-220 | The kept roots reach the same processes as all roots exactly if no root is its own ancestor. |
| `ProcessTree.StaleExclusionLoses` | scripts/local_stack_processes.py:213-220 | With an exclusion that is not closed in the table at hand, pruning loses a process. |
| `Terminate.SortTargets` | scripts/local_stack_processes.py:234-234 | Targets are ordered by number of ancestors among them, then pid, each once. |
| `Terminate.OrderLists` | scripts/local_stack_processes.py:234-234 | The order lists every target once, by number of ancestors among the targets, then by pid. |
| `Terminate.ParentFirstIff` | scripts/local_stack_processes.py:234-234 | A target's parent comes before it exactly if the target is not its own ancestor, or the parent's pid is smaller. |
| `Terminate.TargetsSafe` | scripts/local_stack_processes.py:227-233 | No excluded pid and not pid 1 is ever a target; pid 0 only if the table puts it below a live root; every target was captured or descends from a live root. |
| `Terminate.TargetsIff` | scripts/local_stack_processes.py:227-233 | What is signalled: what was captured, under its captured identity, and what is now below a live root, under its present one, the excluded and pids 0 and 1 as captured left out. |
| `Terminate.LiveRootIff` | scripts/local_stack_processes.py:223-233 | A root is live exactly if the table still shows it with the pid and the birth that were captured. |
| `Terminate.PidZeroIff` | scripts/local_stack_processes.py:107-114 | Pid 0 is a target exactly if the table lists it, it is not excluded and its parent is itself a live root or below one. |
| `Terminate.PidZeroSignalled` | scripts/local_stack_processes.py:227-260 | With a table that lists pid 0 below the process to be stopped, every call that is not refused a signal sends TERM to pid 0. |
| `Terminate.Send` | scripts/local_stack_processes.py:240-250 | One pass reads the table afresh before each target and signals exactly those still shown, up to a refused signal. |
| `Terminate.Await` | scripts/local_stack_processes.py:252-255 | Waiting ends with no survivor or at the deadline, and never earlier. |
| `Terminate.Terminate` | scripts/local_stack_processes.py:227-264 | Over every sequence of table readings and replies: a TERM pass, a wait of the grace period as long as a target is left, a KILL pass exactly if one is left then, another wait, a refusal always reported; a normal return means the last reading shows no target alive, and otherwise the survivors are named. |
| `Terminate.SignalsSafe` | scripts/local_stack_processes.py:227-264 | Every signal goes to a target that is not excluded, captured or below a live root, and born when the reading just before it says. |
| `Terminate.SignalsOrdered` | scripts/local_stack_processes.py:234-250 | Signals of one kind follow the target order, so no pid gets one twice, and no TERM follows a KILL. |
| `Terminate.EveryTargetSignalled` | scripts/local_stack_processes.py:240-260 | Without a refusal every target that the reading of its turn shows is sent TERM, and KILL likewise if one was left. |
| `Ledger.ListEntries` | backend/celery_app.py:470-552 | The listing is the page of the stable sort of the cut lists of the services that answered, and the total counts what was counted before a service failed; with unique keys per service and times both readings agree on, it is the page of all rows that could be listed. |
| `Ledger.PageExact` | backend/celery_app.py:483-552 | With unique keys per service and times both readings agree on, the page equals that of the full stable sort, for every offset and limit. |
| `LedgerListing.PageShows` | backend/celery_app.py:483-552 | There is one arrangement of all rows of the services that answered and have the status asked for, each once, latest first, then greater key, then earlier service; the items are its entries from the offset on, as many as the limit allows. |
| `LedgerListing.TotalCounts` | backend/celery_app.py:487-502 | The total counts the rows asked for of every service that could be counted. |
| `Ledger.TimelyIff` | backend/celery_app.py:509-548 | The database and the final sort read the same time unless the first time present is zero and a later one is not. |
| `Ledger.UntimelyRowLost` | backend/celery_app.py:509-548 | Every row they read differently, of any service, gets some listing wrong: beside some other row of that service, a page of one entry shows the wrong one of the two. |
| `Ledger.OrderedUnique` | backend/celery_app.py:516-518 | With unique keys the duplicate test drops nothing. |
| `Publisher.Publisher.Publish` | backend/celery_app.py:209-211 | The locked part of a publication remembers the payload in the bounded buffer and snapshots the subscribers. |
| `Publisher.Publisher.Subscribe` | backend/celery_app.py:237-240 | The locked part of a subscription takes the buffer and joins in one region. |
| `Publisher.Publisher.Unsubscribe` | backend/celery_app.py:247-252 | Leaving removes that subscriber only. |
| `Publisher.Queue.Put` | backend/celery_app.py:222-231 | A full queue loses its oldest payload, and never exceeds four. |
| `Publisher.EnqueueIs` | backend/celery_app.py:222-231 | Four payloads wait at most; a fifth pushes the oldest out. |
| `Publisher.AppendIs` | backend/celery_app.py:209-211 | The newest payloads stay in the buffer, as many as it holds. |
| `PublisherRuns.RunInv` | backend/celery_app.py:187-252 | Every interleaving of publishers, event loop and subscribers keeps the hand-over invariant. |
| `PublisherRuns.HandOver` | backend/celery_app.py:202-252 | Over every run a subscriber receives nothing twice, by replay only what was published before it came and by queue only what came after; its queue is the newest undelivered payloads, at most four, and taken plus dropped plus queued is all that was sent. |
| `PublisherRuns.NoGap` | backend/celery_app.py:202-252 | When all is quiet, a listening subscriber that lost nothing has exactly what the buffer held when it came and everything published since. |
| `PublisherRuns.ReceivedInOrder` | backend/celery_app.py:202-252 | With one publishing thread, whichever it is, every subscriber receives payloads in the order of publication, for any buffer size and any run. |
| `PublisherRuns.TwoPublishersOutOfOrder` | backend/celery_app.py:209-219 | For any two threads and any buffer size a run in which only these two publish and a subscriber receives payloads out of order. |
| `PublisherRuns.InOrderIff` | backend/celery_app.py:202-252 | Over all runs in which only the given threads publish, every subscriber receives payloads in the order of publication, exactly if there is at most one such thread. |
| `Filters.NamesDiffer` | backend/high_scale/_common.py:379-383 | No two generated parameter names are the same, whatever the prefix. |
| `Filters.Compile` | backend/high_scale/_common.py:364-403 | Compilation fails exactly on a filter with values and an unsupported or empty key, naming the first; otherwise it yields one clause per such filter, and every parameter holds what its filter put there. |
| `Filters.ClauseMeans` | backend/high_scale/_common.py:379-402 | A clause under its parameters selects exactly the rows its filter asks for. |
| `Filters.FiltersMean` | backend/high_scale/_common.py:364-411 | All clauses together select a row exactly if every filter with values does. |
| `FilterMeaning.CompiledMeans` | backend/high_scale/_common.py:345-403 | Compiled filters keep exactly the rows that pass every filter with a value that is not blank, where a row says its client address under ip and client_ip, its country and url, and else its own field, rounded for age and ttl and read as a truth value for edge, is_ipv6 and waf. |
| `FilterMeaning.SupportedIs` | backend/high_scale/_common.py:345-378 | A filter is refused exactly for an empty key or one of five. |
| `FilterMeaning.KeyUnderstood` | backend/repositories/utils/filters.py:76-82 | A column's key is understood with either prefix and with a number at the end. |
| `FilterMeaning.KeyCleaned` | backend/repositories/utils/filters.py:76-82 | Characters that are not letters, digits or underscores do not matter, and a key has only lower-case letters, digits and underscores. |
| `Filters.TruthFilter` | backend/high_scale/_common.py:355-391 | On a truth-valued key every spelling of true finds every spelling of true, likewise false, and any other value finds only itself. |
| `Filters.ExcludeComplements` | backend/high_scale/_common.py:393-402 | Excluding selects the complement of including, absent values included. |

## Left out

- The actual behaviour of ClickHouse, DuckDB, PostgreSQL, Redis and object storage, and all network clients.
- Floating-point rounding, `math.log` and hashing; sample keys are a parameter. Without an event id a sample key depends on the row's index, so the scatter sample is exact for given candidates, not for reordered rows.
- Percentiles averaged over minutes in the network and performance readers: they carry no exactness claim.
- Pool telemetry, slow-checkout logging, shutdown of all pools, and the waits of the condition variable beyond admission.
- Degraded configuration locking, listing of services and refreshing of service names.
- Deletion of stranded objects after the chunk loop: it relies on a ledger classification outside this model.
- `_capture_corrupt_container`: the object is already among the failed, so its outcome changes nothing about deletion.
- The choice of candidate roots in `select_roots` from commands, listeners and holders; only its final filter is modelled.
- Filtered and partial-minute requests: they are read from the facts, the reference side of the comparison. The fact path also never lists the empty value, which the table's list may hold; the bounds speak of non-empty values.
- VCL generation, cryptography, certificates, the gateway, scoring of advisories, the frontend and response shaping: no invariant of comparable depth.
- Terminate.ParentFirstIff: speaks of parents that are themselves targets with a pid above 1; other parents are never signalled.
- Ledger.PageExact: takes offsets and limits as natural numbers, as the router admits no others.
