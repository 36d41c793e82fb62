# Sockudo: a Dafny model of its hardest logic

Sockudo is a WebSocket server with an Ably-compatible facade. This project models, in Dafny 4.11,
the parts of it where a simple promise is kept by a complicated mechanism, and proves the promise:

- **Statistics** (`StatsBuckets`, `StatsObservations`, `StatsCas`, `StatsWorker`, `StatsNode`, `StatsCalendar`,
  `StatsRollups`, `StatsPages`, `StatsKeys`, `StatsQuery`). Counters are summed with 64-bit saturation or kept as
  peaks. Any number of nodes merge them into a shared cache by compare-and-swap; one worker per
  node batches observations, acknowledges them and honours flush barriers; queries list an
  application's minutes, roll them up to hours, days or months, and page through the result with a
  horizon frozen by the first page. `StatsQuery` puts these together: what a client sees of what
  was recorded.
- **Fixtures and the legacy shape** (`StatsFixtures`, `LegacyStats`, `FixtureRoundTrip`). Nested
  objects are flattened to dotted counters and dotted counters are nested again.
- **The outbound queue** (`OutboundSteps`, `OutboundOrder`, `Outbound`). Many senders reserve, enqueue and roll back
  with atomic counters; one receiver drains control before data; a sticky flag records lost
  continuity.
- **Delivery de-duplication** (`DeliveryFrontier`). A watermark and a bounded out-of-order set.
- **Channel names and filters** (`ChannelNames`, `ChannelFilters`, `Base64`, `Utf8`). A scanner for
  bracketed qualifiers with quotes and escapes, and the filter expression carried in one.
- **The wire codec** (`WireCodec`). A bounded visitor over a serde-style token stream.
- **Batch unsubscribe** (`BatchUnsubscribe`). Remove locally, query once per app, merge back.

`Prelude` holds shared vocabulary. `dafny verify dfyconfig.toml` checks the whole project.

## How to read it

Concurrent code is a state machine over its atomic steps (`Enabled`, `Next`, `Run`), with an
invariant that every step keeps and theorems about every state of every run. Code that updates an
object is a class whose methods are tied to specification functions. Loops are methods with
invariants. Every fast or incremental mechanism is compared with an independent description of the
answer: a multiset of contributions, an unbounded sum cut off once, a tracker that remembers
everything, a grammar, a tree of raw values, a total per path.

Findings about the code:

- `batch_unsubscribe` documents its total as cluster-wide. Both adapters answer the count query with
  this node's own sockets included, so the total counts them twice. `TotalIsClusterCountIff` says
  exactly when the total is right, and `LocalSocketsCountTwice` is a concrete instance. With a
  query that counts other nodes only, the total is right.
- `legacy_stats_fields` reaches its `expect` when a counter's path leads through another counter.
  `LegacyPanicsIff` and `PanicsIffShapesDisagree` say exactly when; `PrefixNamesPanic` is an instance.
  A fixture triggers it when two transports disagree in shape and no "all" transport is given
  (`ClashingFixturePanics`).
- When data calls overlap, a frame can enter the channel after an earlier one was refused, because
  the continuity flag is read before the reservation, so what is delivered need not be a prefix of
  what was offered: `OverlapCanDeliverAfterLoss`. `OrderCanBeLostIff` says exactly when this can
  happen: every state in which a data call is past the check, with room, while an earlier one has
  not returned Ok leads on to it, and nothing else does. `LateFramesAreInFlight` bounds what can
  still get in. Data calls that do not overlap never come to such a state
  (`SerialNeverOvertakes`), and `DeliveredIsPrefix` holds whatever everybody else does.
- The statistics listing does not drop repeated keys. A cache scan that returns a key twice makes
  the query merge that minute twice, which is harmless exactly as `ListedTwice` says.
- Bucket merge commutes exactly when shared fields agree on their kind (`MergeCommutesIff`); they
  always do, because the kind is a function of the name (`ObservedCanonical`, `FixtureMeaning`).

Assumptions: a bucket's JSON text determines the bucket, so compare-and-swap on text is
compare-and-swap on buckets; a scan runs over unchanging contents and, where a query is answered
through it, returns each key once; cache entries do not expire; no future is cancelled between its
steps; observations are made for minutes, as the bucket constructor names them; intervals lie in
the years 0000 to 9999; machine words other than the 64-bit counters, the
delivery serials and the 32-bit bracket depth do not overflow.

## Model

| member | source | states |
|---|---|---|
| `StatsBuckets.MergeCommutesIff` | crates/sockudo-ably-compat/src/stats.rs:121-172 | merging two buckets in either order agrees if and only if every shared field has the same aggregation on both sides |
| `StatsBuckets.MergeCommutative` | crates/sockudo-ably-compat/src/stats.rs:165-172 | buckets whose kinds follow their names merge commutatively, even under saturation |
| `StatsBuckets.MergeAssociative` | crates/sockudo-ably-compat/src/stats.rs:165-172 | such buckets merge associatively, even under saturation |
| `StatsBuckets.MixedKindsDoNotCommute` | crates/sockudo-ably-compat/src/stats.rs:121-128 | a concrete pair with disagreeing kinds that does not commute |
| `StatsBuckets.MergeAllConcat` | crates/sockudo-ably-compat/src/stats.rs:973-1008 | merging two batches and then their results is merging their concatenation: batch boundaries do not matter |
| `StatsBuckets.MergeAllPermutation` | crates/sockudo-ably-compat/src/stats.rs:165-172 | the merge of a list depends only on its multiset of buckets |
| `StatsBuckets.MergeAllMeaning` | crates/sockudo-ably-compat/src/stats.rs:121-172 | a merged field is present iff some part has it; a peak is the true maximum, a sum is the unbounded sum cut off at 64 bits once |
| `StatsBuckets.MergeAllCanonical` | crates/sockudo-ably-compat/src/stats.rs:156-172 | merging keeps every field's kind equal to the one its name says |
| `StatsBuckets.StatsBucket.Add` | crates/sockudo-ably-compat/src/stats.rs:156-163 | adding a value is merging a one-field bucket |
| `StatsBuckets.StatsBucket.Merge` | crates/sockudo-ably-compat/src/stats.rs:165-172 | the field-by-field loop computes the merge of both buckets and leaves the other one alone |
| `StatsObservations.Observe` | crates/sockudo-ably-compat/src/stats.rs:189-364 | building any of the nine observations yields the merge of its counters, both scopes included |
| `StatsObservations.PlainFields` | crates/sockudo-ably-compat/src/stats.rs:213-364 | which value goes under which name, and with which kind, for every observation without a transport |
| `StatsObservations.FieldsOfScope` | crates/sockudo-ably-compat/src/stats.rs:189-298 | the same for each scope of messages and connections |
| `StatsObservations.BothScopes` | crates/sockudo-ably-compat/src/stats.rs:189-298 | a scoped observation adds the same to "all" and to its transport |
| `StatsObservations.ObservedCanonical` | crates/sockudo-ably-compat/src/stats.rs:189-364 | whatever the transport is called, every field of every observation has the kind its name says (a peak exactly for names ending in ".peak") |
| `StatsObservations.AllScopeIsTotal` | crates/sockudo-ably-compat/src/stats.rs:189-211 | after merging any observations, the "all" message count of a direction is the number of its messages over all transports, cut off at 64 bits once; messages of a transport itself called "all" count twice |
| `StatsCas.StepKeepsInv` | crates/sockudo-ably-compat/src/stats.rs:528-569 | every atomic step of every call keeps: the cache is the merge of the landed writes, each call lands at most once, and what a call read is a past state of its key |
| `StatsCas.RunInvariant` | crates/sockudo-ably-compat/src/stats.rs:528-569 | that invariant in every state of every interleaving of any number of calls |
| `StatsCas.StoredIsMergeOfLandedCalls` | crates/sockudo-ably-compat/src/stats.rs:528-569 | the stored bucket is the merge of exactly the contributions of the calls that landed: every call that returned Ok once, every call that exhausted its retries never |
| `StatsCas.ExhaustionNeedsContention` | crates/sockudo-ably-compat/src/stats.rs:528-569 | a call exhausts its retries only if, since it was invoked, as many merges of its key landed as it had attempts: the configured retries, or one if that is zero |
| `StatsCas.ExhaustedAfter` | crates/sockudo-ably-compat/src/stats.rs:528-569 | in every interleaving a call returns exhausted exactly when it has lost its swap as often as configured, at least once |
| `StatsCas.SwapOutcome` | crates/sockudo-ably-compat/src/stats.rs:536-560 | a swap succeeds exactly when the cache still holds what the call read, and a lost one is retried exactly while attempts remain |
| `StatsCas.LostSwapWasOvertaken` | crates/sockudo-ably-compat/src/stats.rs:536-560 | a lost swap means another merge of the key landed since the read |
| `StatsCas.InterleavingDoesNotMatter` | crates/sockudo-ably-compat/src/stats.rs:528-569 | two interleavings of the same calls in which the same calls land leave the same cache |
| `StatsWorker.CollectBatch` | crates/sockudo-ably-compat/src/stats.rs:973-1003 | the grouping loop yields one bucket per key, the merge of that key's observations, with acknowledgements, barriers and the observation count |
| `StatsWorker.StepKeepsInv` | crates/sockudo-ably-compat/src/stats.rs:751-805 | every step of callers, worker and other nodes keeps the accounting, the queue order, the callers' states, the replies, the store and the log |
| `StatsWorker.RunInvariant` | crates/sockudo-ably-compat/src/stats.rs:952-1033 | that invariant in every state of every run, for any capacity and batch cap |
| `StatsWorker.BacklogIsExact` | crates/sockudo-ably-compat/src/stats.rs:751-793 | backlog is callers about to send, plus queued observations, plus those in the worker's batch; never negative, zero when quiet; dropped counts exactly the rejected try_record calls |
| `StatsWorker.TryRecordIsAccountedFor` | crates/sockudo-ably-compat/src/stats.rs:771-793 | a caller of try_record was told Ok iff its own command was enqueued, each command has its own caller, and dropped counts exactly the dropped calls |
| `StatsWorker.TryRecordEnds` | crates/sockudo-ably-compat/src/stats.rs:771-793 | a try_record call ends accepted, with exactly its observation enqueued, or dropped; it is never refused and never awaits a reply |
| `StatsWorker.DroppedIffNoRoom` | crates/sockudo-ably-compat/src/stats.rs:771-793 | in every state of every run a try_record call is dropped exactly if its send found the queue full or the worker gone |
| `StatsWorker.RoomMeansAccepted` | crates/sockudo-ably-compat/src/stats.rs:771-793 | a send that found room is accepted, for good |
| `StatsWorker.RefusedOnlyIfGone` | crates/sockudo-ably-compat/src/stats.rs:751-769 | record and flush fail for want of a worker only after the worker crashed |
| `StatsWorker.EveryoneIsAnswered` | crates/sockudo-ably-compat/src/stats.rs:1004-1032 | when the worker turns to the next batch, every record and every flush attempted so far has been answered, with its own batch's result |
| `StatsWorker.ErrorMeansFailure` | crates/sockudo-ably-compat/src/stats.rs:1004-1032 | a caller is told of an error only after the store failed |
| `StatsWorker.WithinLimits` | crates/sockudo-ably-compat/src/stats.rs:958-971 | the queue never outgrows its capacity, nor the worker's batch its cap |
| `StatsWorker.RecordedExactlyOnce` | crates/sockudo-ably-compat/src/stats.rs:952-1033 | the store is at every moment the merge of the stored contributions, no observation is stored twice, and one acknowledged Ok is stored with its own key and counters |
| `StatsWorker.FlushIsBarrier` | crates/sockudo-ably-compat/src/stats.rs:795-805 | when flush returns, every command enqueued before it has been attempted, and every observation among them whose batch succeeded is stored with its own key and counters |
| `StatsWorker.EveryBatchSucceeds` | crates/sockudo-ably-compat/src/stats.rs:1004-1032 | in a run whose store never fails, every attempted command has succeeded |
| `StatsWorker.FlushStoresEverything` | crates/sockudo-ably-compat/src/stats.rs:795-805 | with a store that never fails, an answered flush means every observation enqueued before it is among the contributions whose merge is its key's stored bucket |
| `StatsWorker.StoredKeysWereObserved` | crates/sockudo-ably-compat/src/stats.rs:952-1033 | every stored contribution has a key that some call, here or on another node, was made with |
| `StatsWorker.StoreGrows` | crates/sockudo-ably-compat/src/stats.rs:952-1033 | between two moments of a run no key and no contribution disappears |
| `StatsWorker.BatchingDoesNotMatter` | crates/sockudo-ably-compat/src/stats.rs:966-1008 | once drained without failures, the store holds the merge of all accepted observations with other nodes' contributions, whatever the batch boundaries were |
| `StatsWorker.ArrivalOrderDoesNotMatter` | crates/sockudo-ably-compat/src/stats.rs:952-1033 | two cleanly drained runs agree on a key whenever the same contributions were made to it, by whichever node, in whatever order and with whatever caps |
| `StatsNode.StepRefines` | crates/sockudo-ably-compat/src/stats.rs:528-569 | with the worker storing through compare-and-swap among other nodes, every atomic step is one step of the batching model, or none |
| `StatsNode.RunRefines` | crates/sockudo-ably-compat/src/stats.rs:528-591 | every run of such a node is a run of the batching model with the shared cache as its store |
| `StatsNode.RecordedThroughCas` | crates/sockudo-ably-compat/src/stats.rs:528-591 | so the shared cache is at every moment the merge of all stored contributions, none twice, and an observation acknowledged Ok is among them with its own key and counters |
| `StatsCalendar.CivilRoundTrip` | crates/sockudo-ably-compat/src/stats.rs:65-74 | every instant inside a civil minute decodes to that minute |
| `StatsCalendar.CivilOfValid` | crates/sockudo-ably-compat/src/stats.rs:65-74 | every instant of the years 0000 to 9999 decodes to a valid minute that contains it |
| `StatsCalendar.DaysBeforeYearClosedForm` | crates/sockudo-ably-compat/src/stats.rs:1187-1199 | the leap-year rule gives the usual closed form of the day count |
| `StatsCalendar.UnixEpochDay` | crates/sockudo-ably-compat/src/stats.rs:65-74 | 1970-01-01 is day 719528, which ties the calendar to timestamps |
| `StatsCalendar.OrderIsChronological` | crates/sockudo-ably-compat/src/stats.rs:864-867 | field order of dates is the order of their instants |
| `StatsCalendar.IdOrder` | crates/sockudo-ably-compat/src/stats.rs:827-864 | string order of ids at a unit is chronological order, and equal ids mean the same interval |
| `StatsCalendar.FormatExample` | crates/sockudo-ably-compat/src/stats.rs:65-74 | how one minute is written at each unit |
| `StatsCalendar.ParseFormat` | crates/sockudo-ably-compat/src/stats.rs:1164-1178 | parsing a formatted id gives the beginning of its interval |
| `StatsCalendar.RollupTwice` | crates/sockudo-ably-compat/src/stats.rs:76-79 | rolling an id up names the containing interval, and two hops are one |
| `StatsCalendar.IntervalEnd` | crates/sockudo-ably-compat/src/stats.rs:1185-1204 | one millisecond before an interval's end lies in its last minute: month lengths, leap years and December included |
| `StatsCalendar.BoundsSelectInterval` | crates/sockudo-ably-compat/src/stats.rs:1180-1209 | one interval as both bounds selects exactly the minutes inside it, or inside the surrounding interval of the query's unit when that is coarser |
| `StatsCalendar.TimestampBoundSelectsUnit` | crates/sockudo-ably-compat/src/stats.rs:1181-1183 | a numeric bound names, from both sides, exactly the unit interval containing its instant |
| `StatsRollups.RollUp` | crates/sockudo-ably-compat/src/stats.rs:827-838 | the grouping loop fails iff some stored id does not parse, and otherwise maps every interval to the merge of exactly its minutes |
| `StatsRollups.ListedTwice` | crates/sockudo-ably-compat/src/stats.rs:826-838 | a bucket listed twice leaves its interval as it was if and only if each of its sums is zero or already cut off |
| `StatsRollups.PartsAreMinutes` | crates/sockudo-ably-compat/src/stats.rs:76-79 | the buckets rolled up into the interval around a minute are exactly those whose own minute truncates to the same interval |
| `StatsRollups.RollupMeaning` | crates/sockudo-ably-compat/src/stats.rs:827-838 | for stored minutes: the interval around any minute is present iff a stored minute falls into it, and each field is the maximum, or the sum cut off once, over exactly the stored minutes that do |
| `StatsRollups.RollupsAreIntervals` | crates/sockudo-ably-compat/src/stats.rs:827-838 | every rolled-up id is the id of a calendar interval of the query's unit |
| `StatsRollups.Regrouped` | crates/sockudo-ably-compat/src/stats.rs:827-838 | regrouping the groups of any list is grouping it directly, whenever the fine grouping refines the coarse one |
| `StatsRollups.RollupInTwoHops` | crates/sockudo-ably-compat/src/stats.rs:76-79 | minute to hour to day (any two units) equals minute to day |
| `StatsRollups.UnitsRefine` | crates/sockudo-ably-compat/src/stats.rs:65-79 | every finer interval lies inside the coarser one, so the two hops agree on ids |
| `StatsPages.ParseLimit` | crates/sockudo-ably-compat/src/stats.rs:376-398 | the page limit is at least 1 and at most 1000, a limit in that range is kept, and the default is 100 |
| `StatsPages.QueryPage` | crates/sockudo-ably-compat/src/stats.rs:840-915 | a cursor is refused iff it belongs to another query; otherwise the page is the first limit candidates in order with their buckets, and a cursor iff more remain |
| `StatsPages.CursorBelongs` | crates/sockudo-ably-compat/src/stats.rs:1225-1242 | a cursor is accepted for exactly one application and one query: unit, direction and both bounds |
| `StatsPages.CandidatesInOrder` | crates/sockudo-ably-compat/src/stats.rs:850-873 | filter, reverse and retain yield exactly the intervals inside the bounds and horizon and beyond the cursor, in the chosen direction |
| `StatsPages.MakePageServes` | crates/sockudo-ably-compat/src/stats.rs:875-915 | truncating the ordered candidates gives a page and a cursor that names the last id served and the same horizon |
| `StatsPages.WalkServesEverythingOnce` | crates/sockudo-ably-compat/src/stats.rs:819-915 | pages followed while keys are added but not removed are strictly ordered without repeats, and a finished walk served every key of the first snapshot; the number of pages is bounded |
| `StatsPages.HorizonIsFrozen` | crates/sockudo-ably-compat/src/stats.rs:844-848 | every page of a walk uses the first page's horizon |
| `StatsPages.ClientWalkIsWalk` | crates/sockudo-ably-compat/src/stats.rs:1225-1242 | pages served to a client that follows cursors form such a walk |
| `StatsPages.ClientSeesEverythingOnce` | crates/sockudo-ably-compat/src/stats.rs:819-915 | the client sees strictly monotone ids inside the bounds, none later than the newest interval of the first page's store, and at the end every in-bounds interval of that store exactly once |
| `StatsPages.HorizonIsNewest` | crates/sockudo-ably-compat/src/stats.rs:844-848 | the horizon of a first page is the newest interval, or empty when there is none |
| `StatsKeys.PrefixNamesOneApp` | crates/sockudo-ably-compat/src/stats.rs:519-526 | one app's prefix is a prefix of a bucket key iff the key is that app's |
| `StatsKeys.KeyInjective` | crates/sockudo-ably-compat/src/stats.rs:524-526 | equal keys mean equal app and interval |
| `StatsKeys.KeyOrder` | crates/sockudo-ably-compat/src/stats.rs:593-632 | under one prefix, key order is interval order |
| `StatsKeys.ReadPages` | crates/sockudo-ably-compat/src/stats.rs:593-629 | over any scan, with opaque cursors and pages of any size and order: reads every entry returned until no cursor is left, or refuses exactly when more than the maximum were returned |
| `StatsKeys.RowWalkCovers` | crates/sockudo-cache/src/redis_cluster_cache_manager.rs:219-264 | a scan that walks a fixed arrangement of keys in rows of any size ends, finds exactly the matching keys, and repeats none if no row does |
| `StatsKeys.MemoryScanCovers` | crates/sockudo-cache/src/memory_cache_manager.rs:119-164 | the in-memory prefix scan ends and finds every matching key exactly once |
| `StatsKeys.SlotScanCovers` | crates/sockudo-cache/src/redis_cache_manager.rs:243-287 | a SCAN that walks a table slot by slot, in no key order and with pages of any size, ends and finds every matching key |
| `StatsKeys.List` | crates/sockudo-ably-compat/src/stats.rs:593-632 | through any scan: refused if the app has more than the maximum, and only then if no key is returned twice; otherwise exactly the app's buckets sorted by interval, strictly ascending if no key is returned twice; never cut short |
| `StatsKeys.SortedIsListing` | crates/sockudo-ably-compat/src/stats.rs:630-631 | sorting what was read by interval gives exactly the app's buckets in interval order, whatever order they were read in, strictly ascending if no key was read twice |
| `StatsKeys.ListingIsUnique` | crates/sockudo-ably-compat/src/stats.rs:630-631 | there is only one strictly ascending listing of given buckets |
| `StatsQuery.AnyScanListsAlike` | crates/sockudo-ably-compat/src/stats.rs:593-632 | so whatever the scan, the listing is the application's buckets in key order |
| `StatsQuery.ListingIsOfApp` | crates/sockudo-ably-compat/src/stats.rs:593-632 | listing a store gives exactly the application's minutes, each once, with what is stored for it |
| `StatsQuery.QueryStore` | crates/sockudo-ably-compat/src/stats.rs:819-915 | listing through any scan that returns each key once, rollup and paging as one query: refused iff too many minutes, then iff an id does not parse, then iff the cursor is another query's; otherwise a page of the application's rollups |
| `StatsQuery.ListingRollsUpPieces` | crates/sockudo-ably-compat/src/stats.rs:826-838 | rolling up the listed buckets is rolling up every single contribution behind them |
| `StatsQuery.ShownIsRecorded` | crates/sockudo-ably-compat/src/stats.rs:819-838 | in every state of every run a query shows an interval iff something was contributed to a minute in it, and shows the merge of all contributions to it, from all nodes, each once |
| `StatsQuery.QuerySeesAccepted` | crates/sockudo-ably-compat/src/stats.rs:819-838 | with a store that never fails, a query after an answered flush shows every observation enqueued before that flush, merged into its interval |
| `StatsQuery.FollowCursors` | crates/sockudo-ably-compat/src/stats.rs:840-915 | a client that passes back each cursor is never refused its own cursor: it is served the pages of one query until none is left, or meets a store that cannot be scanned |
| `StatsQuery.WithinIffSelected` | crates/sockudo-ably-compat/src/stats.rs:850-861 | the paging filter keeps an interval iff the textual bounds select its minutes |
| `StatsQuery.BoundedQuery` | crates/sockudo-ably-compat/src/stats.rs:1180-1209 | a query bounded on both sides by one interval keeps exactly the intervals inside it, or around it when the unit is coarser |
| `StatsQuery.ClientSeesRecorded` | crates/sockudo-ably-compat/src/stats.rs:819-915 | following the cursors while recording goes on gives every interval at most once, in ascending or descending order as asked, every page but the last full, in at most one page more than the scan limit; of the intervals with a contribution at the first request, exactly those between the bounds, a missing bound excluding nothing |
| `StatsQuery.ClientSeesSelected` | crates/sockudo-ably-compat/src/stats.rs:850-861 | the same in calendar terms with no bound, only a start, only an end or both: seen are exactly the recorded intervals that neither end before the start nor begin after the end; anything else seen was recorded meanwhile, inside the bounds and no later than the newest interval at first |
| `StatsQuery.ClientSeesAccepted` | crates/sockudo-ably-compat/src/stats.rs:819-915 | end to end, with a store that never fails: every observation enqueued before an answered flush and selected by the bounds is on one of the client's pages, merged with all contributions to its interval |
| `LegacyStats.InsertFails` | crates/sockudo-ably-compat/src/stats.rs:1093-1121 | inserting a path panics exactly when a scalar lies on the way to it |
| `LegacyStats.InsertMeaning` | crates/sockudo-ably-compat/src/stats.rs:1093-1121 | after an insertion the scalars are the new one and the old ones not at or below its path |
| `LegacyStats.BuildMeaning` | crates/sockudo-ably-compat/src/stats.rs:1077-1121 | inserting a list panics exactly when one path leads to a later one; otherwise the scalars are exactly the counters nothing later replaced |
| `LegacyStats.ShowsAllIffCompatible` | crates/sockudo-ably-compat/src/stats.rs:1077-1121 | the tree exists and shows every counter iff no path is a proper prefix of another and equal paths agree |
| `LegacyStats.CompatibleTree` | crates/sockudo-ably-compat/src/stats.rs:1077-1121 | flattening the tree of such counters returns exactly the counters |
| `LegacyStats.LegacyStatsFields` | crates/sockudo-ably-compat/src/stats.rs:1077-1091 | the loop inserts the renamed counters in the map's order |
| `LegacyStats.LegacyShowsAllIff` | crates/sockudo-ably-compat/src/stats.rs:1077-1091 | every counter is shown without a panic iff no two renamed names clash |
| `LegacyStats.LegacyPanicsIff` | crates/sockudo-ably-compat/src/stats.rs:1077-1121 | the expect is reached iff a name, in the map's order, leads to a later one |
| `LegacyStats.PrefixNamesPanic` | crates/sockudo-ably-compat/src/stats.rs:1107-1109 | two concrete names that reach the expect |
| `LegacyStats.JoinSplit` | crates/sockudo-ably-compat/src/stats.rs:1094-1097 | joining the dot-separated segments of a name gives the name back |
| `LegacyStats.SplitJoin` | crates/sockudo-ably-compat/src/stats.rs:1094-1097 | splitting joined dot-free segments gives the segments back |
| `StatsFixtures.CollectMeaning` | crates/sockudo-ably-compat/src/stats.rs:1123-1162 | collection adds exactly the unsigned leaves, or fails exactly when a name, the depth or the number of fields exceeds its limit |
| `StatsFixtures.CollectNumbers` | crates/sockudo-ably-compat/src/stats.rs:1123-1162 | the recursion on the bucket computes that collection, with its errors |
| `StatsFixtures.CollectObject` | crates/sockudo-ably-compat/src/stats.rs:1151-1160 | the loop over an object's fields, in key order, stopping at the first error |
| `StatsFixtures.CollectTransport` | crates/sockudo-ably-compat/src/stats.rs:1051-1066 | one transport counts towards "all" exactly when there is no explicit "all", and towards itself |
| `StatsFixtures.CollectDirection` | crates/sockudo-ably-compat/src/stats.rs:1046-1067 | the loop over a direction's transports |
| `StatsFixtures.CollectOthers` | crates/sockudo-ably-compat/src/stats.rs:1068-1073 | the loop over all other fields except the interval id and the directions |
| `StatsFixtures.BucketFromFixture` | crates/sockudo-ably-compat/src/stats.rs:1035-1075 | the whole conversion: each error case, the interval id, and the counters |
| `StatsFixtures.FixtureMeaning` | crates/sockudo-ably-compat/src/stats.rs:1035-1075 | a fixture is accepted iff it names a minute and keeps every limit; the bucket is then the merge of its leaves and every field has the kind its name says |
| `FixtureRoundTrip.CollectedIsExpected` | crates/sockudo-ably-compat/src/stats.rs:1046-1073 | per path, the collected counters add up to what the fixture says there, a missing "all" being the total of the transports |
| `FixtureRoundTrip.LegacyOfFixture` | crates/sockudo-ably-compat/src/stats.rs:1035-1121 | for dot-free keys and no top-level "messages", the legacy object shows every counter iff the transports' shapes agree |
| `FixtureRoundTrip.PanicsIffShapesDisagree` | crates/sockudo-ably-compat/src/stats.rs:1035-1121 | for such fixtures the conversion panics iff two transports without an "all" disagree in shape |
| `FixtureRoundTrip.ClashingFixturePanics` | crates/sockudo-ably-compat/src/stats.rs:1035-1121 | every fixture in which one inbound transport is a number and the other an object with a number is accepted, and its legacy view panics |
| `FixtureRoundTrip.ClashingFixtureExists` | crates/sockudo-ably-compat/src/stats.rs:1035-1073 | there is such a fixture for every minute |
| `FixtureRoundTrip.ShownExactly` | crates/sockudo-ably-compat/src/stats.rs:1035-1121 | otherwise the scalars of the legacy object are exactly the numbers the fixture means |
| `FixtureRoundTrip.LeafComesBack` | crates/sockudo-ably-compat/src/stats.rs:1035-1121 | every unsigned leaf comes back at its own path |
| `FixtureRoundTrip.MissingAllIsTotal` | crates/sockudo-ably-compat/src/stats.rs:1046-1067 | a missing "all" comes back as the sum cut off at 64 bits, or the maximum for a peak, over the transports |
| `OutboundSteps.StepKeepsLane` | crates/sockudo-ably-compat/src/outbound.rs:242-288 | every atomic step of any sender or the receiver keeps both counters exact and within their limits |
| `OutboundSteps.RunInvariant` | crates/sockudo-ably-compat/src/outbound.rs:242-395 | that invariant in every state of every interleaving |
| `OutboundSteps.CountersAreExact` | crates/sockudo-ably-compat/src/outbound.rs:360-395 | messages are frames queued plus open reservations plus frames popped but not released, bytes likewise; never above the limit, never below zero |
| `OutboundSteps.ChannelIsNeverFull` | crates/sockudo-ably-compat/src/outbound.rs:191-217 | a sender that reached the channel always finds room, so it rolls back exactly when disconnected |
| `OutboundSteps.QuietCounters` | crates/sockudo-ably-compat/src/outbound.rs:360-378 | once nothing is in flight the counters are exactly the queue's contents |
| `OutboundOrder.HistoryHolds` | crates/sockudo-ably-compat/src/outbound.rs:242-378 | in every state of every interleaving, data delivered and then queued is the frames of the calls that returned Ok, in the order they entered the channel, each once |
| `OutboundOrder.OrderCanBeLostIff` | crates/sockudo-ably-compat/src/outbound.rs:242-326 | from any state of any run in order so far, order can be lost if and only if a state can follow in which a data call is past the check and finds room while an earlier data call has not returned Ok |
| `OutboundOrder.OvertakingLosesOrder` | crates/sockudo-ably-compat/src/outbound.rs:242-288 | from every such state of every run, steps of the overtaking call alone lead to lost order |
| `OutboundOrder.LostByOvertaking` | crates/sockudo-ably-compat/src/outbound.rs:242-288 | every loss of order was preceded by such a state |
| `OutboundOrder.SerialNeverOvertakes` | crates/sockudo-ably-compat/src/outbound.rs:242-288 | data calls that do not overlap never come to such a state |
| `OutboundOrder.StepKeepsSerial` | crates/sockudo-ably-compat/src/outbound.rs:242-312 | every atomic step keeps, while data calls do not overlap: one data call past the check at a time, none past it once the flag is up, a refusal only with the flag up or the receiver gone |
| `OutboundOrder.DeliveredIsPrefix` | crates/sockudo-ably-compat/src/outbound.rs:242-326 | while data calls do not overlap, with control calls, receiver steps and disconnection interleaved at will: delivered plus queued is the first data frames offered, one per call that returned Ok; no call after a refused one gets through; a refusal means lost or disconnected; the overflow path runs at most once |
| `OutboundOrder.NothingEntersAfterFailure` | crates/sockudo-ably-compat/src/outbound.rs:242-312 | from the first loss or disconnection on, nothing more enters the data channel |
| `OutboundOrder.SequentialIsSerial` | crates/sockudo-ably-compat/src/outbound.rs:223-236 | making each data call only after every earlier one has returned keeps them from overlapping |
| `OutboundOrder.LateFramesAreInFlight` | crates/sockudo-ably-compat/src/outbound.rs:242-312 | in every interleaving, data that enters after the flag went up belongs to calls that had passed the check by then, so there is at most one frame for each of those |
| `OutboundOrder.OverlapCanDeliverAfterLoss` | crates/sockudo-ably-compat/src/outbound.rs:242-312 | a reachable state with the flag up in which data delivered plus queued is no prefix of the data offered |
| `Outbound.UninterruptedSend` | crates/sockudo-ably-compat/src/outbound.rs:223-312 | a send whose steps are not interrupted does exactly what the one-step specification says, nested error frame included, with its result |
| `Outbound.SendOutcome` | crates/sockudo-ably-compat/src/outbound.rs:223-312 | which result a send gives in terms of the counters and limits of its class, what raises the continuity flag, and that nothing else is touched |
| `Outbound.PutSteps` | crates/sockudo-ably-compat/src/outbound.rs:255-288 | reserve, reserve bytes, enqueue and every rollback together leave the lane as one put does |
| `Outbound.UninterruptedReceive` | crates/sockudo-ably-compat/src/outbound.rs:316-378 | a receive whose steps are not interrupted returns the frame the steps hold and leaves the queues they leave, as the one-step specification says |
| `Outbound.ReceivesInOrder` | crates/sockudo-ably-compat/src/outbound.rs:316-326 | receives return all queued control frames, then all queued data frames, each lane first in first out, then nothing |
| `Outbound.FirstInFirstOut` | crates/sockudo-ably-compat/src/outbound.rs:223-326 | frames of either class that fit an empty session are all accepted, and as many receives return exactly them in the order sent |
| `Outbound.AblyOutbound.Reserve` | crates/sockudo-ably-compat/src/outbound.rs:381-395 | both counters are raised, or neither, exactly when both limits allow |
| `Outbound.AblyOutbound.Send` | crates/sockudo-ably-compat/src/outbound.rs:242-288 | the new queues and the result are those of the specification |
| `Outbound.AblyOutbound.HandleOverflow` | crates/sockudo-ably-compat/src/outbound.rs:290-312 | control overflow changes nothing; data overflow raises the flag and offers one error frame; the recursion ends |
| `Outbound.AblyOutbound.TryReceive` | crates/sockudo-ably-compat/src/outbound.rs:316-326 | control before data, first in first out, counters released |
| `DeliveryFrontier.CatchUpKeeps` | crates/sockudo-ably-compat/src/runtime.rs:2054-2063 | the catch-up loop covers the same serials and leaves the pending ones beyond the first gap |
| `DeliveryFrontier.AnswersAsIdeal` | crates/sockudo-ably-compat/src/runtime.rs:2018-2076 | over any run of deliveries and attach positions the tracker answers as one that remembers every serial, and stays within its bound |
| `DeliveryFrontier.CoveredMeansSettled` | crates/sockudo-ably-compat/src/runtime.rs:1023-1045 | what is covered is exactly what was accepted or established since continuity began |
| `DeliveryFrontier.DeliveryVerdict` | crates/sockudo-ably-compat/src/runtime.rs:2042-2075 | a delivery is suppressed iff its serial was already accepted or established, refused iff a reset is required or the window is full, and accepted otherwise |
| `DeliveryFrontier.NewStreamStartsAfresh` | crates/sockudo-ably-compat/src/runtime.rs:2027-2041 | the first event of another stream forgets everything: its delivery is accepted and is all that is covered, its position covers what is up to it |
| `DeliveryFrontier.ResetStartsAfresh` | crates/sockudo-ably-compat/src/runtime.rs:1023-1045 | establishing a position after a refusal starts afresh |
| `DeliveryFrontier.FailsClosed` | crates/sockudo-ably-compat/src/runtime.rs:2042-2072 | after an overflow every further delivery of the stream is refused and the state is kept |
| `DeliveryFrontier.ChannelState.Advance` | crates/sockudo-ably-compat/src/runtime.rs:2056-2061 | the loop on the fields is the catch-up |
| `DeliveryFrontier.ChannelState.Accept` | crates/sockudo-ably-compat/src/runtime.rs:2018-2076 | the new state and the verdict are those of the specification; an unpositioned delivery passes |
| `DeliveryFrontier.ChannelState.Establish` | crates/sockudo-ably-compat/src/runtime.rs:1023-1045 | an attach position restarts after a stream change or overflow and otherwise only moves forward |
| `DeliveryFrontier.TrackAll` | crates/sockudo-ably-compat/benches/fanout_grouping.rs:97-121 | for any serials, what is covered was seen; everything seen is covered unless more distinct serials came than fit; pending stays beyond the first gap and within the bound |
| `ChannelNames.ScanQualifier` | crates/sockudo-ably-compat/src/channel_name.rs:86-119 | the loop with depth, quote and escape finds the end the specification names |
| `ChannelNames.QualifierIsFound` | crates/sockudo-ably-compat/src/channel_name.rs:86-119 | a balanced qualifier's end is found whatever text follows its bracket |
| `ChannelNames.ScannerMeetsGrammar` | crates/sockudo-ably-compat/src/channel_name.rs:86-119 | the scanner finds an end iff the text is a balanced, non-blank qualifier followed by anything |
| `ChannelNames.SplitIsUnique` | crates/sockudo-ably-compat/src/channel_name.rs:16-56 | a name splits into qualifier and base in one way only |
| `ChannelNames.ParseQualified` | crates/sockudo-ably-compat/src/channel_name.rs:16-56 | a qualified text parses to exactly its qualifier and base unless the base is reserved |
| `ChannelNames.ParseUnqualified` | crates/sockudo-ably-compat/src/channel_name.rs:28-43 | every other text is its own base, or the error its first character calls for |
| `ChannelNames.ParseMeetsGrammar` | crates/sockudo-ably-compat/src/channel_name.rs:16-43 | success and each of the five errors, if and only if, in terms of the grammar |
| `ChannelNames.BaseIsAName` | crates/sockudo-ably-compat/src/channel_name.rs:45-56 | parsing an accepted name's base succeeds with itself as base and no qualifier |
| `ChannelFilters.SourceMeaning` | crates/sockudo-ably-compat/src/filter.rs:30-52 | a qualifier yields an expression iff it is "filter=", that expression encoded, and perhaps parameters; within the bounds |
| `ChannelFilters.SourceErrors` | crates/sockudo-ably-compat/src/filter.rs:34-51 | which error a filter qualifier gets: empty or oversized, no Base64 of anything, no string's UTF-8, each exactly when |
| `ChannelFilters.NoPrefixNoFilter` | crates/sockudo-ably-compat/src/filter.rs:31-36 | a qualifier carries no filter exactly when it lacks the prefix |
| `ChannelFilters.ChannelRoundTrip` | crates/sockudo-ably-compat/src/filter.rs:30-52 | a channel built from any non-empty expression of at most 4096 bytes parses, keeps its base and gives the expression back, whatever balanced printable parameters follow |
| `ChannelFilters.DecodedRoundTrip` | crates/sockudo-ably-compat/src/filter.rs:37-52 | every expression within the bound passes all length checks and decodes to itself |
| `Base64.RoundTrip` | crates/sockudo-ably-compat/src/filter.rs:43-45 | decoding an encoding gives the bytes back, in both alphabets (sections 4 and 5 of RFC 4648) |
| `Base64.Vectors` | crates/sockudo-ably-compat/src/filter.rs:43-45 | test vectors of RFC 4648 and one that tells the two alphabets apart |
| `Base64.DecodeIsStrict` | crates/sockudo-ably-compat/src/filter.rs:43-45 | the only text accepted for given bytes is their encoding: padding and spare bits are checked |
| `Base64.EncodedText` | crates/sockudo-ably-compat/src/stats.rs:519-522 | encoded text uses the alphabet only, so it contains no separator |
| `Utf8.RoundTrip` | crates/sockudo-ably-compat/src/filter.rs:49-51 | decoding the UTF-8 form of a string gives the string back |
| `Utf8.Vectors` | crates/sockudo-ably-compat/src/filter.rs:49-51 | test vectors of RFC 3629 |
| `Utf8.DecodeIsStrict` | crates/sockudo-ably-compat/src/filter.rs:49-51 | only the shortest form of scalar values is accepted |
| `WireCodec.Access.DeserializeAny` | crates/sockudo-ably-compat/src/codec.rs:45-99 | dispatch on the next token: value, remaining stream and errors as specified |
| `WireCodec.Access.VisitSeq` | crates/sockudo-ably-compat/src/codec.rs:101-118 | the loop checks the hint first and the limit after each element, and rebuilds the elements in order |
| `WireCodec.Access.VisitMap` | crates/sockudo-ably-compat/src/codec.rs:120-137 | the loop counts distinct keys only, and a repeated key keeps its last value |
| `WireCodec.VisitPrint` | crates/sockudo-ably-compat/src/codec.rs:54-137 | visiting the stream of any described value, whatever its hints and repeated keys, returns its meaning and what follows it, or an error when a limit is exceeded |
| `WireCodec.AcceptsExactly` | crates/sockudo-ably-compat/src/codec.rs:160-168 | a whole stream decodes to a value iff it prints a description of that value with every hint and collection within the limit and nothing left over |
| `WireCodec.DecodedIsBounded` | crates/sockudo-ably-compat/src/codec.rs:101-137 | every decoded value has at most 4096 entries per collection at every depth |
| `WireCodec.SerializeRoundTrip` | crates/sockudo-ably-compat/src/codec.rs:26-43 | a serialized value is read back, signed non-negatives as unsigned, iff every collection in it is within the limit, with or without hints |
| `BatchUnsubscribe.ConnectionManager.RemoveFromChannel` | crates/sockudo-core/src/namespace.rs:495-517 | the socket leaves, an emptied channel loses its entry, and both facts are reported |
| `BatchUnsubscribe.ConnectionManager.LocalCounts` | crates/sockudo-adapter/src/connection_manager.rs:327-341 | exactly the non-zero local counts of the channels asked for |
| `BatchUnsubscribe.AddCounts` | crates/sockudo-adapter/src/horizontal_adapter_base/connection_manager_impl.rs:674-679 | adding a response entry by entry, in any order, gives the sum per channel |
| `BatchUnsubscribe.ConnectionManager.BatchCounts` | crates/sockudo-adapter/src/horizontal_adapter_base/connection_manager_impl.rs:621-680 | the answer per channel: peers, and this node too if it counts its own; an error exactly for an unreachable app |
| `BatchUnsubscribe.ConnectionManager.RemoveOne` | crates/sockudo-adapter/src/channel_manager.rs:551-583 | one operation: the membership after it and what is recorded, each error case included |
| `BatchUnsubscribe.ConnectionManager.RemoveAll` | crates/sockudo-adapter/src/channel_manager.rs:551-583 | the first loop: one record per operation in order, each with the count right after it |
| `BatchUnsubscribe.GroupByApp` | crates/sockudo-adapter/src/channel_manager.rs:586-593 | a channel is grouped under its app iff some operation left it |
| `BatchUnsubscribe.Dedup` | crates/sockudo-adapter/src/channel_manager.rs:594-597 | on sorted input dropping adjacent repeats leaves each name once |
| `BatchUnsubscribe.SortAndDedup` | crates/sockudo-adapter/src/channel_manager.rs:594-597 | the result is strictly ascending and has the same members |
| `BatchUnsubscribe.DedupGroups` | crates/sockudo-adapter/src/channel_manager.rs:594-597 | sorting and deduplicating every group loses no channel |
| `BatchUnsubscribe.ConnectionManager.QueryAll` | crates/sockudo-adapter/src/channel_manager.rs:599-620 | the collected counts are the answers for the grouped channels of reachable apps, and nothing else |
| `BatchUnsubscribe.Merge` | crates/sockudo-adapter/src/channel_manager.rs:622-650 | each result adds the remaining count to its local one; the first result on a channel uses it up; exactly the zero totals are listed for cleanup |
| `BatchUnsubscribe.ConnectionManager.CleanUp` | crates/sockudo-adapter/src/channel_manager.rs:652-657 | exactly the listed entries are dropped |
| `BatchUnsubscribe.ConnectionManager.BatchUnsubscribe` | crates/sockudo-adapter/src/channel_manager.rs:540-660 | one result per operation in order as specified without grouping; exactly the channels reported empty are cleaned up; the cleanup loses no subscriber |
| `BatchUnsubscribe.AfterOpsMeaning` | crates/sockudo-adapter/src/channel_manager.rs:551-583 | the batch removes exactly the subscriptions it names, refused and unparsable ones excepted |
| `BatchUnsubscribe.ResultMeaning` | crates/sockudo-adapter/src/channel_manager.rs:551-583 | each result in terms of the subscriptions before the batch: the error cases, removed iff the socket was subscribed and not named earlier in the batch, vacated iff this operation is the one that leaves nobody here |
| `BatchUnsubscribe.VacatedOnce` | crates/sockudo-adapter/src/channel_manager.rs:551-583 | no channel is reported vacated twice in one batch |
| `BatchUnsubscribe.ReportedIsAbsent` | crates/sockudo-adapter/src/channel_manager.rs:636-657 | a channel reported empty has no local entry at the end of the batch |
| `BatchUnsubscribe.TotalIsClusterCountIff` | crates/sockudo-adapter/src/channel_manager.rs:532-539 | the last total reported for a channel, and exactly when it is the cluster-wide count the documentation promises; a queried zero is always a true zero |
| `BatchUnsubscribe.LocalSocketsCountTwice` | crates/sockudo-adapter/src/horizontal_adapter_base/connection_manager_impl.rs:621-641 | a concrete batch whose reported total is 2 while the cluster holds 1 socket |

## Left out

- Redis, tokio and other runtime internals: the cache is an atomic map with get, set-if-absent, compare-and-swap and a prefix scan in pages.
- Cache expiry and cancelled futures: excluded by assumption.
- Falling back from one cache to another in the middle of a scan: a scan stays with one cache.
- JSON and MessagePack bytes: `WireCodec` works on tokens, buckets stand for their JSON text, and a paging cursor is passed as a value rather than as encoded JSON.
- The lenient number and date parsing of chrono: interval ids are parsed as exact digits and separators, and numeric bounds enter as instants.
- Errors of the flush or of the cache in `query`: they end it before the modelled part.
- `put` of fixtures into the store, which overwrites instead of merging: one write per bucket.
- LegacyStats.InsertMeaning: the nested maps are values that insertion rebuilds along the path, so updating a tree in place and aliasing are not captured.
- StatsBuckets.StatsBucket.constructor: the interval id is given; naming an instant's interval is `StatsCalendar.IntervalId`.
- StatsCas.RunInvariant: the retry loop's steps are interleaved as a state machine over values instead of a loop over an asynchronous cache.
- OutboundSteps.RunInvariant: the steps of try_send and of the receiver are program points of a state machine, because other senders run between them.
- ChannelNames.QualifierIsFound: positions count characters where the code counts bytes; every slice is the same text.
- Shared metric totals of the outbound side, flush counters and lag: they are not read by the logic above.
- Matching compiled filter predicates, HMAC signatures, key and token parsing, protocol records, error mapping and delta building: foreign libraries or one-branch code.
- Presence, history, push, the HTTP API, cleanup workers, dashboards, SDKs and load tests: they would only add easy members.
