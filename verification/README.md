# ContentV1: a verified model of the crawl scheduler and worker

ContentV1 decides which visited pages are worth downloading, when, and how fast. This project
models its own logic in Dafny and proves what that logic guarantees across functions and over
whole runs:

- **Visit statistics and top search.** `UrlFreqMap.dfy`, `UrlFreqHistory.dfy`, `LastPerMaps.dfy`,
  `UrlFreqStats.dfy`, `UrlFreqStatsLF.dfy`, `EnqueueTargets.dfy`, `EnqueueLoopFilter.dfy`: a count
  map plus a time queue stand in for the full visit log; a limited top list is built from two
  rankings; a doubling search over it ends on target or with everything there is, robots files first
  and then what is ranked highest.
- **Admission control.** `TpSlidWin.dfy`, `HostFreq.dfy`, `HostDb.dfy`, `HostDbRuns.dfy`,
  `HostDbCounters.dfy`, `GlobalLimits.dfy`, `HostDbExact.dfy`: rate limits, in-flight counters and
  the robots gate, over every interleaving of requests and results, and each decision as a function
  of the log alone.
- **Retry policy and daily quota.** `CrawlAttempts.dfy`, `UrlDb.dfy`, `UrlDbRuns.dfy`,
  `UrlDbBackoff.dfy`, `CrawledDb.dfy`, `EnqueueLoop.dfy`, `QuotaRuns.dfy`, `QuotaExample.dfy`,
  `EnqueueRound.dfy`: bounded histories, spacing and back-off over runs, each decision by the log, and
  the daily target over runs of any number of days.
- **Visit store.** `UrlsDays.dfy`, `UrlsDaysHistory.dfy`, `UrlsDaysDb.dfy`, `UrlsDaysSnapshots.dfy`,
  `UrlsDaysLabels.dfy`: day buckets, the protocol of producers, merger and snapshot thread as
  interleaved steps, what is on disk at any moment, and what the stored labels come to.
- **Worker.** `ReqBatch.dfy`, `FetchLoop.dfy`, `QueryIndex.dfy`: batch dispatch and the keyword
  index.
- `Clock.dfy`, `Types.dfy`, `Rankings.dfy` hold what they share.

## How to read it

An object whose methods change its fields is a class. Each method states its whole new state
through a function of the old one, and the theorems about runs are lemmas about those functions.
Objects that live by value inside a map (host limiters, url histories) are taken out of the map,
used as objects and put back. `HostDb` carries a ghost log of grants and results; the same log is
part of the state the run theorems speak about. `UrlFreqStatsLF` carries the batches merged so far.

Time is a number of nanosecond ticks, truncated to seconds, hours or days exactly where the code
casts; days are UTC days. Clock readings are parameters: the limiter's clock is a function from
looks to readings, so every look the code takes is counted. Loops over unordered maps visit keys
in an arbitrary order, and sorting fixes no order of ties.

The url parser and robots matcher (`Web`), the http scheduler as the worker sees it (`Scheduler`),
the keyword trie (`Trie`), the rounding of attempt times and the url under which a status is
counted are function parameters. What is required of them: rounding is monotone, status urls are
distinct, urls are totally ordered, and the trie reports exactly the occurring keywords. Sorting,
set difference and prefix helpers of `src/misc` are not part of the repository's files; they are
written out from their use. Stores on disk are maps whose writes succeed.

## Where the code does less than its names or comments say

- `UrlFreqMap::checkSortedAndDestroyQueue` compares every entry with the first only, so it decides
  sortedness for queues of up to two entries and for no longer ones
  (`OrderCheckDecidesShortQueues`); three inserts reach a queue it misjudges
  (`OrderCheckMissesDisorder`).
- `CrawledDb::_getTodayEvents` returns the latest stored day, which need not be today
  (`CounterReadsLatestDay`), and pushes that are not merged yet are not counted. The daily target
  holds on the first day of merged counters (`QuotaHolds`), and later exactly as long as every round
  that asks for anything finds no more queued for its day than its hour leaves aside
  (`RoundKeepsQuotaIff`, `QuotaOverDays`, `QuotaIffGuarded`; `GuardWhenMerged` is the case of an
  empty queue, `Overshoot` the exact excess). `QuotaBreaksOnSecondDay` is a run that pushes 2 with a
  target of 1 although everything is merged; `LaggingRoundsPileUp` has runs that push any multiple of
  the target before the first merge.
- Two known urls with the same normal form make two entries (`EntriesDistinctIff` says when an entry
  repeats another), so a search may reach its target with fewer distinct urls.
- A merge into an entry without days copies days that retention would remove (`StaleDaysIff`).
- A merge into a new entry leaves its label empty, and labels are what the statistics are filled
  under at start (`LabelsStayEmpty`, `FedStatsKnowNoUrl`).
- A host without a limiter passes every limit, the global one included. What the global limiter
  refuses when it is full is exactly the hosts that have a limiter (`FullLimiterPassesNewHosts`,
  `LimitPassedIff`), so a run keeps the limit if and only if it lets no new host through a full
  limiter (`LimitKeptIff`). `TwoInFlightUnderLimitOne` and `NoBoundOnNewHosts` are runs past the
  limit, `GlobalRateLimit` is the bound that remains for its windows. The global counter is held
  against the per-host limit, which gives the bound "limit plus number of hosts" in
  `InFlightAccounting`.
- Once the limit of a top list is reached, urls that are listed already get no more day counts either
  (`CountsAtLimit`), so the order at the limit is not the order of the sums.
- Counters published by merging are not expired. They never undercount
  (`PublishedNeverUndercounts`), are exact if and only if no published entry has expired
  (`PublishedExactIff`), and are stale in the run of `PublishedCountIsStale`.
- `last4xx5xxCount` never looks at the oldest stored attempt, which is why the wait after `n`
  failures is `2^(n-1)` hours and not `2^n`.
- A worker configured with a batch limit of zero never finishes a non-empty batch
  (`LoopEndsIff`); a negative limit wraps to a huge size and takes everything.

## Model

| member | source | states |
|---|---|---|
| `Clock.CastThreshold` | src/core/TpSlidWin.cpp:21-26 | a duration truncated to whole units reaches (exceeds) a threshold exactly when the untruncated one reaches it (one unit more) |
| `Clock.ExpiredThreshold` | src/core/UrlFreqMap.cpp:85-90 | an event leaves a window of w seconds exactly when it is w + 1 seconds old |
| `Rankings.RankingOf` | src/core/UrlFreqMap.cpp:122-130 | every entry of the count map once, sorted by descending count; the order of ties is left open |
| `Rankings.ReduceUrlFreqs` | src/core/Types.cpp:6-18 | every url of the input once, with the sum of its counts |
| `Rankings.SummedMeaning` | src/core/Types.cpp:8-15 | the grouped map has exactly the input's urls and each count is the sum over the input |
| `UrlFreqMaps.UrlFreqMap.InsertVisitsPack` | src/core/UrlFreqMap.cpp:18-23 | the new map and queue are those of push-then-expire on the old ones |
| `UrlFreqMaps.UrlFreqMap.Insert` | src/core/UrlFreqMap.cpp:10-16 | a visit is inserted as a pack of one |
| `UrlFreqMaps.UrlFreqMap.CheckCleanup` | src/core/UrlFreqMap.cpp:64-102 | the expiry loop pops the whole expired front and nothing else, with its counts |
| `UrlFreqMaps.UrlFreqMap.Merge` | src/core/UrlFreqMap.cpp:25-62 | counts are added url by url, queues are merged by time, also when the map is merged with itself |
| `UrlFreqMaps.UrlFreqMap.MergeQueues` | src/core/UrlFreqMap.cpp:32-60 | the nested loops terminate with the two-way merge of the queues |
| `UrlFreqMaps.UrlFreqMap.CheckSortedAndDestroyQueue` | src/core/UrlFreqMap.cpp:104-120 | accepts exactly the queues whose first entry is the oldest |
| `UrlFreqHistory.OrderCheckDecidesShortQueues` | src/core/UrlFreqMap.cpp:104-120 | on queues of a given length acceptance means sortedness if and only if the length is at most two; a sorted queue is always accepted |
| `UrlFreqHistory.OrderCheckMissesDisorder` | src/core/UrlFreqMap.cpp:109-118 | three inserts into an empty counter leave an unsorted queue that the check accepts |
| `UrlFreqHistory.CountsAreScans` | src/core/UrlFreqMap.cpp:10-62 | after every tree of inserts and merges with positive counts each map count is the sum over its queue entries, with no zero and no missing entry, whatever the clock did |
| `UrlFreqHistory.NothingInWindowLost` | src/core/UrlFreqMap.cpp:64-102 | at any time not before the last clock reading, every visit still in the window is in the queue as often as it was inserted, and nothing else was invented, in whatever order visit times and readings came |
| `UrlFreqHistory.ExactIffNoStaleEntry` | src/core/UrlFreqMap.cpp:85-101 | counts never fall below the naive in-window counts; all of them are exact if and only if the queue holds no expired entry |
| `UrlFreqHistory.MergedQueueMultiset` | src/core/UrlFreqMap.cpp:40-60 | the merged queue is the multiset union of both |
| `UrlFreqHistory.MergedQueueSorted` | src/core/UrlFreqMap.cpp:32-60 | merging sorted queues gives a sorted queue |
| `UrlFreqHistory.MergedQueueInterleaves` | src/core/UrlFreqMap.cpp:32-60 | both queues keep their own order in the merged one and no entry is lost or doubled; in sorted queues, of two entries at the same time the other map's goes first |
| `UrlFreqHistory.MergedConsistent` | src/core/UrlFreqMap.cpp:25-62 | merging keeps the count map in step with the queue |
| `UrlFreqHistory.InsertMakesWindowExact` | src/core/UrlFreqMap.h:12-15 | with visits in time order, right after an insert the queue is the sorted in-window part of the combined log of everything inserted and merged in, and every count is the naive count over it |
| `LastPerMapsPair.LastPerMaps.Insert` | src/core/LastPerMaps.cpp:12-16 | both counters get the visit at the same clock reading |
| `LastPerMapsPair.LastPerMaps.Merge` | src/core/LastPerMaps.cpp:32-35 | hour merges with hour and day with day |
| `LastPerMapsPair.LastPerMaps.Max` | src/core/LastPerMaps.cpp:8-10 | while the hour counter stays within the day counter this is the number of distinct known urls |
| `LastPerMapsPair.HourIsSuffixOfDay` | src/core/LastPerMaps.cpp:12-22 | after any sequence of inserts, ordered or not and with any clock, the hour queue is a suffix of the day queue; with positive counts the hour counter stays within the day counter |
| `LastPerMapsPair.DayKnowsEveryUrl` | src/core/LastPerMaps.cpp:8-10 | hour keys are day keys and hour counts are at most day counts |
| `LastPerMapsPair.CountsAreLastHourAndDay` | src/core/LastPerMaps.cpp:5-22 | with visits in time order, right after an insert the hour counter holds, url by url, the visits less than 3601 seconds old and the day counter those less than 86401 seconds old, counted by hand over everything inserted |
| `UrlFreqStatsByMerge.PublishedHourWithinDay` | src/core/UrlFreqStatsLF.h:40-49 | merging locally built pairs into the published one keeps the hour counter within the day counter |
| `UrlFreqStatsByMerge.UrlFreqStatsLF.MergePass` | src/core/UrlFreqStatsLF.h:40-49 | a pass over a batch publishes the merge of the old pair with the pair built from the batch |
| `UrlFreqStatsByMerge.UrlFreqStatsLF.Max` | src/core/UrlFreqStatsLF.cpp:25-29 | for positive events the number of distinct known urls, in every state that passes of the merge thread lead to |
| `UrlFreqStatsByMerge.UrlFreqStatsLF.GetTopUrls` | src/core/UrlFreqStatsLF.cpp:35-66 | the same list from the published counters as `UrlFreqStats` gives from its own |
| `UrlFreqStatsByMerge.PublishedIsHistory` | src/core/UrlFreqStatsLF.h:40-49 | the published counters are histories of inserts and merges, so the history theorems apply to them |
| `UrlFreqStatsByMerge.PublishedNeverUndercounts` | src/core/UrlFreqStatsLF.h:40-49 | published counts never fall below the number of visits less than 3601 (86401) seconds old among everything written |
| `UrlFreqStatsByMerge.PublishedExactIff` | src/core/UrlFreqStatsLF.h:40-49 | published hour (day) counts are all exact if and only if no published hour (day) entry has expired |
| `UrlFreqStatsByMerge.PublishedCountIsStale` | src/core/UrlFreqStatsLF.h:40-49 | two batches after which, at the moment of the second pass, a url counts one visit for the last hour and has none in it |
| `UrlFreqStatistics.UrlFreqStats.GetTopUrls` | src/core/UrlFreqStats.cpp:26-58 | the list is a ranking of the limited map built from the hour ranking and then the day ranking |
| `UrlFreqStatistics.TopIsFirstDistinct` | src/core/UrlFreqStats.cpp:37-48 | the list holds exactly the first `limit` distinct unfiltered urls of hour ranking followed by day ranking; a negative limit is no limit |
| `UrlFreqStatistics.TopGrowsWithLimit` | src/core/UrlFreqStats.cpp:37-48 | raising the limit never drops a url |
| `UrlFreqStatistics.UnreachedLimitIsExact` | src/core/UrlFreqStats.cpp:37-48 | if the limit was not reached, every unfiltered known url is listed with the exact hour-plus-day sum |
| `UrlFreqStatistics.LargeLimitListsAll` | src/core/UrlFreqStats.cpp:37-48 | a limit of at least the number of known urls lists them all |
| `UrlFreqStatistics.CountsAtLimit` | src/core/UrlFreqStats.cpp:37-48 | for any limit: the rankings are read, hour before day, up to the entry that fills the list with the limit-th url, and a listed count is the sum of the entries read for its url |
| `TopSearch.EnqueueLoopFilter.NeedCrawlUrls` | src/scheduler/default/EnqueueLoopFilter.cpp:8-36 | the output names exactly the targets of the input urls: due robots files first, each once, then the due pages in input order with their counts; one decision per permitted url; from an input without repetitions no url is named twice if and only if no two urls lead to the same target |
| `TopSearch.EnqueueLoopFilter.Filter` | src/scheduler/default/EnqueueLoopFilter.cpp:38-43 | all that is due in a ranked top list comes out in that order; only targets of known urls, none twice if known urls lead to distinct ones, and all there are once the limit covers the known urls |
| `TopSearch.EnqueueLoopFilter.SearchTop` | src/scheduler/default/EnqueueLoopFilter.cpp:45-89 | terminates; the k-th pass ranks the first target * 2^k urls and only the last pass may reach the target; what is returned is the best of the last ranked list: no page while a due robots file of that list is left out, no page while a due page ranked higher is left out, higher ranks first; target many entries, or fewer only together with every target there is |
| `EnqueueTargets.PipelineBestFirst` | src/scheduler/default/EnqueueLoopFilter.cpp:14-34 | the four stages list all that is due, robots files before pages and pages as they are ranked, however missing robots files were grouped |
| `EnqueueTargets.HigherRankFirst` | src/scheduler/default/EnqueueLoopFilter.cpp:31-36 | of two urls with due pages in a ranked list, if the page of the lower one is pushed then so is the page of the higher one, and earlier, and every due robots file of the list is pushed before both |
| `TopSearch.MoreVisitedFirst` | src/scheduler/default/EnqueueLoopFilter.cpp:83-87 | of two urls of the ranked list with due pages the one with the higher count is pushed first |
| `EnqueueTargets.ListedAreTargets` | src/scheduler/default/EnqueueLoopFilter.cpp:14-34 | such a list names only targets, and all of them if nothing due is left out |
| `EnqueueTargets.NeverAttemptedIsTarget` | src/ldb/UrlDbPolicy.cpp:32-34 | every known url that parses and that its host's robots file allows is a target under its normal form if that was never attempted; without a robots file the file is, if it was never attempted |
| `EnqueueTargets.EntriesDistinctIff` | src/ldb/HostDb.cpp:79-95 | made from a list without repetitions, a list of all that is due repeats nothing if and only if the normal forms of the due pages are distinct and none of them is a due robots file |
| `EnqueueTargets.TargetsGrow` | src/scheduler/default/EnqueueLoopFilter.cpp:48-54 | looking at more urls never loses a target |
| `SlidingWindows.TpSlidWin.Size` | src/core/TpSlidWin.cpp:7-12 | one look at the clock; the count after dropping the expired front |
| `SlidingWindows.TpSlidWin.Inc` | src/core/TpSlidWin.cpp:14-19 | one look at the clock; the reading is appended and the expired front dropped |
| `SlidingWindows.TpSlidWin.CheckClean` | src/core/TpSlidWin.cpp:21-26 | drops exactly the expired front |
| `SlidingWindows.RecentIsLive` | src/core/TpSlidWin.cpp:9-26 | the cleaned queue is exactly the list of all counted events that have not expired |
| `SlidingWindows.IncSpaced` | src/core/TpSlidWin.cpp:16-19 | counting one more event when fewer than the limit are left keeps any limit + 1 consecutive events further apart than the window |
| `SlidingWindows.SpacedBoundsIntervals` | src/core/TpSlidWin.h:9-12 | such spacing bounds the number of events in every interval within the window by the limit |
| `HostFrequency.HostFreq.IsAllowed` | src/core/HostFreq.cpp:5-20 | in-flight check first, then the three windows, each with its own look at the clock and cleaned only when reached |
| `HostFrequency.HostFreq.IncCrawling` | src/core/HostFreq.cpp:22-27 | one more in flight, counted in three windows at three clock readings |
| `HostFrequency.HostFreq.DecCrawling` | src/core/HostFreq.cpp:29-33 | one less in flight, never below zero |
| `HostDatabase.HostDb.TryCrawl` | src/ldb/HostDb.cpp:129-160 | decisions and new state follow from taking the urls one by one; each answer about robots is the one of the stored files; allowed records are the ALLOW subsequence, each logged as one grant in order; the robots files to fetch are those of the pages whose host has none, once each |
| `HostDatabase.HostDb.TryCrawlOne` | src/ldb/HostDb.cpp:177-206 | a page is refused by robots exactly when its host has a stored file that does not allow its normal form, and sent for a file exactly when its host has none; then frequency; a grant is logged if and only if the answer is ALLOW |
| `HostDatabase.HostDb.IsAllowedFreq` | src/ldb/HostDb.cpp:208-214 | an unknown host passes untouched; otherwise the host is checked and only then the global limiter |
| `HostDatabase.HostDb.OnFetched` | src/ldb/HostDb.cpp:37-58 | each parsable result lowers both counters and a good robots result stores the file |
| `HostDatabase.HostDb.LeaveAllowedByRobots` | src/ldb/HostDb.cpp:79-95 | a page is among the allowed exactly when an input url parses, is a robots file or has a stored file that allows its normal form, which is what is listed with the url's count; a file is among the needed exactly when the host of an input page has none |
| `HostDbRuns.RateLimit` | src/ldb/HostDb.cpp:177-220 | over every run, with a clock that never goes back and a limit of at least 1, no closed interval of a minute, an hour or a day sees more than the configured number of grants for a host |
| `HostDbRuns.RunKeepsRate` | src/ldb/HostDb.cpp:97-220 | in every reachable state each window of each host is the unexpired tail of its grants, and grants are spaced |
| `HostDbRuns.HostCheckExact` | src/core/HostFreq.cpp:5-20 | a known host passes its own check exactly when it has a free slot and, by the log of grants, room in each window |
| `GlobalLimits.GlobalRateLimit` | src/ldb/HostDb.cpp:208-220 | over every run, all grants in a closed interval of a minute, an hour or a day number at most the limit plus the grants to hosts that had no limiter at that moment |
| `GlobalLimits.RunKeepsGlobal` | src/ldb/HostDb.cpp:97-220 | in every reachable state each global window is the unexpired tail of all grants, and a grant to a host with a limiter comes more than a window after the limit-th grant before it |
| `GlobalLimits.FullLimiterPassesNewHosts` | src/ldb/HostDb.cpp:177-214 | with the global limiter full a url is allowed if and only if it parses, robots rules let it through, and its host has no limiter yet |
| `GlobalLimits.LimitPassedIff` | src/ldb/HostDb.cpp:177-220 | one request takes the global number in flight past the limit if and only if the limit is reached and the request is of that kind |
| `GlobalLimits.LimitKeptIff` | src/ldb/HostDb.cpp:97-220 | over every run, url by url, the global number in flight always stays within the limit if and only if no new host is let through while the limiter is full |
| `HostDbRuns.RunIsUrlRun` | src/ldb/HostDb.cpp:37-160 | a run of requests and result lists ends in the same state as its urls and results one by one |
| `GlobalLimits.NoBoundOnNewHosts` | src/ldb/HostDb.cpp:129-220 | however low the limits, a first request for n urls of n unseen hosts ends with n in flight |
| `GlobalLimits.TwoInFlightUnderLimitOne` | src/ldb/HostDb.cpp:208-220 | with a parallel limit of one and two unseen hosts, the global counter is two |
| `HostDbCounters.InFlightAccounting` | src/ldb/HostDb.cpp:37-45 | in every reachable state a host's counter is at most max(1, parallel limit), the global one at most the sum of the host counters and at most limit plus number of hosts; if every result answers a grant, each counter is grants minus results and the global one is the sum |
| `HostDbCounters.RobotsGate` | src/ldb/HostDb.cpp:47-50 | over every run each page is granted under the robots file that the log alone gives for its host at that moment: the content of the latest good result for one, or else the file stored at the start; the stored files are exactly those |
| `HostDbCounters.RobotsDecisions` | src/ldb/HostDb.cpp:177-206 | in every reachable state a page is refused by robots if and only if the log gives a file for its host that does not allow it, and sent for its robots file if and only if the log gives none |
| `HostDbCounters.SplitFollowsLog` | src/ldb/HostDb.cpp:79-95 | in every reachable state the enqueue side keeps exactly the pages permitted by the file that the log gives, and asks exactly for the files that the log lacks |
| `HostDbExact.AdmissionExact` | src/ldb/HostDb.cpp:177-214 | in every reachable state a url is granted if and only if it parses, is permitted by the log, and either nothing was logged for its host or host and then system have fewer in flight and fewer grants in the last minute, hour and day than allowed, all by the log; DISALLOW_FREQ is the remaining case |
| `HostDbExact.CountersFollowLog` | src/core/HostFreq.cpp:22-33 | in every reachable state each counter in flight is the log's grants minus results, floored at zero at every result, and a host has a limiter exactly when the log mentions it |
| `HostDbExact.RunTold` | src/ldb/HostDb.cpp:216-220 | every grant of a run is stamped with six looks at the clock of its own, three for the host and then three for the system, and counts as new exactly if nothing was logged for its host before |
| `HostDbCounters.DecisionsAlign` | src/ldb/HostDb.h:67-69 | the i-th decision is the one for the i-th url in the state left by those before |
| `HostDbCounters.AllowedIsSubsequence` | src/ldb/HostDb.cpp:151-155 | each allowed record appears at the place given by the number of allowed ones before it |
| `CrawlAttemptHistory.CrawlAttempts.Add` | src/core/CrawlAttempts.cpp:38-47 | the new attempt is appended as enqueued and only the ten latest are kept |
| `CrawlAttemptHistory.CrawlAttempts.Set` | src/core/CrawlAttempts.cpp:49-56 | changes the status of the first attempt made at that time, and reports whether there was one |
| `CrawlAttemptHistory.CrawlAttempts.Last4xx5xxCount` | src/core/CrawlAttempts.cpp:74-87 | the number of trailing http errors, but never counting the oldest stored attempt |
| `CrawlAttemptHistory.HistoryIsRecentPart` | src/core/CrawlAttempts.cpp:42-45 | the stored history is exactly the ten most recent attempts of the unbounded history, in order, with their latest status |
| `CrawlAttemptHistory.BackoffExact` | src/ldb/UrlDbPolicy.cpp:66-77 | after n >= 1 enqueue-and-fail rounds from a fresh url the wait is 2^min(n - 1, 9) hours |
| `CrawlAttemptHistory.BackoffBounds` | src/ldb/UrlDbPolicy.cpp:70-73 | the wait is between 1 and 512 hours for every stored history |
| `UrlDatabase.UrlDb.IsNeedCrawl` | src/ldb/UrlDbPolicy.cpp:19-81 | the decision, doubling loop included, is the page policy's; a url without an attempt is allowed, any other exactly from its wait on, measured untruncated |
| `UrlDatabase.UrlDb.LeaveNeedUrls` | src/ldb/UrlDbPolicy.cpp:5-17 | one decision per url in order; the output is the allowed subsequence, which holds exactly the urls that were never attempted or whose wait is over |
| `UrlDatabase.UrlDb.LeaveNeedRobots` | src/ldb/UrlDbPolicyRobots.cpp:4-16 | the same under the robots policy |
| `UrlDatabase.AllowedExactlyAfterWait` | src/ldb/UrlDbPolicyRobots.cpp:18-75 | both policies allow a url without an attempt at every reading, and any other exactly from the waiting time of their table on, measured untruncated from the last attempt; no wait is under an hour |
| `UrlDatabase.AllowStaysAllow` | src/ldb/UrlDbPolicy.cpp:19-81 | in an unchanged state a permission is never taken back |
| `UrlDatabase.UrlDb.SetEnqueued` | src/ldb/UrlDbModify.cpp:6-15 | every url gets one more attempt at the rounded time |
| `UrlDatabase.UrlDb.OnFetched` | src/ldb/UrlDbModify.cpp:29-46 | the last attempt of every url takes the result's status; an unknown url first gets an attempt |
| `UrlDbRuns.ChoicesAreSpaced` | src/ldb/UrlDbPolicy.cpp:19-81 | a url chosen again keeps its distance from every earlier push: an hour at least; under the page policy a day without a result since and a week after OK; under the robots policy a day after any final result |
| `UrlDbRuns.RoundsAreSpaced` | src/scheduler/default/EnqueueLoop.cpp:22-41 | of two rounds that push the same url the later one decided at least an hour after the time stored for the earlier |
| `UrlDbBackoff.DecisionsFollowLog` | src/ldb/UrlDbPolicy.cpp:19-81 | in every reachable state and for both policies the decision about a url, refusals included, is a table over what the log tells: ALLOW without an attempt, else by the status of the latest one and the time since it, with 2^k hours after k trailing http errors for a page |
| `UrlDbBackoff.NeverAttemptedIsChosen` | src/ldb/UrlDbPolicyRobots.cpp:29-32 | a url that was attempted neither before the run nor in it is chosen whenever a round asks, under both policies and at every reading |
| `UrlDbBackoff.BackoffOverRuns` | src/ldb/UrlDbPolicy.cpp:66-77 | over every run, once the last k attempts at a page have ended in http errors, it is not chosen again before 2^m hours after the stored time of every earlier push, m being k but at most 9 and less than the number of attempts |
| `UrlDbBackoff.HistoriesFollowLog` | src/core/CrawlAttempts.cpp:38-56 | in every reachable state a stored history is exactly what the stored attempts and the log of pushes and results give, times and statuses, cut to ten by a push |
| `UrlDbRuns.RunKeepsSpacing` | src/ldb/UrlDbModify.cpp:6-46 | in every reachable state the stored history ends with the latest push and the status that the log of pushes and results tells |
| `UrlDbRuns.BatchIsPushes` | src/ldb/UrlDbModify.cpp:6-15 | recording a batch is pushing its urls one by one |
| `UrlDbRuns.ResultsAreSteps` | src/ldb/UrlDbModify.cpp:29-46 | recording a list of results is recording them one by one at the same reading |
| `UrlDbRuns.RoundIsRun` | src/scheduler/default/EnqueueLoop.cpp:22-41 | a round over allowed urls is a run of the steps in which each url is chosen before it is pushed, and leaves the histories as the batch does |
| `UrlsDaysStore.UrlsDays.Add` | src/ldb/UrlsDays.h:114-127 | an event more than 13 * 24 * 3600 * 10^9 ticks old changes nothing; any other raises the bucket of its day by its count, under its url as label if the entry is new, and the days of that url are cleaned |
| `UrlsDaysStore.UrlsDays.Merge` | src/ldb/UrlsDays.h:129-134 | every url of the other store is merged into its entry, others stay |
| `UrlsDaysStore.UrlsDays.MergeEntry` | src/ldb/UrlsDays.h:67-78 | an entry without days takes the other's days uncleaned; otherwise days are added and cleaned |
| `UrlsDaysStore.UrlsDays.CheckClean` | src/ldb/UrlsDays.h:80-94 | removes exactly the days before the oldest kept one |
| `UrlsDaysStore.UrlsDays.GetUTSV` | src/ldb/UrlsDays.h:174-180 | one entry per stored day in ascending order with the count of that day |
| `UrlsDaysHistory.AgeDecides` | src/ldb/UrlsDays.h:114-127 | an event at most 13 days old raises its day's bucket by its count in spite of the clean-up of its own add, an older one leaves the store as it was |
| `UrlsDaysHistory.WeightByAge` | src/ldb/UrlsDays.h:114-126 | what is counted by hand for a url and a day are the events that are at most 13 * 24 * 3600 * 10^9 ticks old at their own reading and fall on that UTC day |
| `UrlsDaysHistory.CalendarDecides` | src/ldb/UrlsDays.h:115-118 | what happened on any of the last 12 full days is always counted, what lies more than 13 calendar days back never, and on the day between the time of day decides |
| `UrlsDaysHistory.StaleDaysIff` | src/ldb/UrlsDays.h:67-78 | a merge keeps a day older than retention exactly where it copies into an entry without days, or does not touch the url |
| `UrlsDaysHistory.RetainedCountsExact` | src/ldb/UrlsDays.h:67-134 | for every mix of adds and merges, with clock readings in any order, and every day still retained at the latest of them, the stored count is the naive count of the accepted events |
| `UrlsDaysHistory.RetainedDaysPresent` | src/ldb/UrlsDays.h:67-134 | a retained day has a bucket if and only if some accepted event fell on it |
| `UrlsDaysHistory.BatchesAgreeWithDirectAdds` | src/ldb/UrlsDays.h:114-134 | however events are cut into batches, and in whatever order clock readings come, building and merging batches counts every retained day as adding all events to one store |
| `UrlsDaysHistory.RetentionBound` | src/ldb/UrlsDays.h:16-18 | if the clock never goes back along a branch and no event lies in the future of its reading, no url ever holds more than 14 days |
| `UrlsDaysProtocol.VisitsConserved` | src/ldb/UrlsDaysDb.cpp:73-104 | in every reachable state of the interleaved protocol, published + drained + queued equals loaded + saved - dropped as too old, per url and retained day |
| `UrlsDaysProtocol.RecentVisitsConserved` | src/ldb/UrlsDaysDb.cpp:73-104 | for today and each of the last 12 full days nothing is dropped: in every reachable state published + drained + queued equals loaded + saved |
| `UrlsDaysProtocol.SavedIsAllSaves` | src/ldb/UrlsDaysDb.cpp:44-44 | until the store is closed every save of every thread is among the saved visits, in order |
| `UrlsDaysProtocol.ShutdownPersists` | src/ldb/UrlsDaysDb.cpp:31-37 | after shutdown everything saved before the final drain is on disk, and opening again restores the same urls, days and counts |
| `UrlsDaysProtocol.ShutdownKeepsRecent` | src/ldb/UrlsDaysDb.cpp:31-37 | of the last 12 full days everything saved before the final drain is there after opening again |
| `UrlsDaysProtocol.DiskAlwaysFits` | src/ldb/UrlsDaysDbSnap.cpp:36-53 | disk and running snapshots never know a url that is not published; the queue left at the end is what came after the final drain |
| `UrlsDaysSnapshots.DiskFollowsCopies` | src/ldb/UrlsDaysDbSnap.cpp:36-63 | in every reachable state the disk is exactly the latest copy that a snapshot took; while one is running it is the copy before, overwritten by the urls written so far; after shutdown it is what is published |
| `UrlsDaysSnapshots.SnapshotIsRun` | src/ldb/UrlsDaysDbSnap.cpp:36-53 | the code of a snapshot is a run of the protocol's steps, in whatever order it visits the urls |
| `UrlsDaysLabels.LabelsStayEmpty` | src/ldb/UrlsDays.h:129-134 | in every reachable state an entry has the label it had on disk when the store was opened and none if it was not there; without labels on disk none ever appears |
| `UrlsDaysLabels.FedStatsKnowNoUrl` | src/scheduler/default/Scheduler.cpp:106-118 | filled at start from a store without labels, the published statistics know no url but the empty one, however the fill is batched |
| `UrlsDaysProtocol.UrlsDaysDb.MergeEventsFromQueue` | src/ldb/UrlsDaysDb.cpp:73-104 | an undisturbed pass empties the queue and publishes the merge: every retained count grows by the naive count of what was queued; a pass that drained nothing leaves the finished flag down |
| `UrlsDaysProtocol.UrlsDaysDb.LoadSnapshot` | src/ldb/UrlsDaysDbSnap.cpp:15-34 | memory becomes exactly what is on disk |
| `UrlsDaysProtocol.UrlsDaysDb.SaveSnapshot` | src/ldb/UrlsDaysDbSnap.cpp:36-53 | disk is overwritten by memory url by url, nothing is removed |
| `UrlsDaysProtocol.UrlsDaysDb.SaveVisitsPack` | src/ldb/UrlsDaysDb.cpp:44-44 | a save only enqueues |
| `UrlsDaysProtocol.PassIsRun` | src/ldb/UrlsDaysDb.cpp:73-104 | the code of a pass is a run of the protocol's steps, which leaves disk, snapshot and flags alone |
| `UrlsDaysProtocol.ShutdownIsRun` | src/ldb/UrlsDaysDb.cpp:31-37 | shutting down an idle store is a run of the protocol that ends closed, with the queue merged and all that is published written over the disk |
| `CrawledCounters.CrawledDb.GetTodayEvents` | src/ldb/CrawledDb.cpp:57-64 | the count of the latest stored day, zero without one |
| `CrawledCounters.CrawledDb.GetFinishedToday` | src/ldb/CrawledDb.cpp:41-47 | the sum over the four final statuses |
| `CrawledCounters.CrawledDb.GetInProgress` | src/ldb/CrawledDb.cpp:49-55 | enqueued less finished |
| `CrawledCounters.CrawledDb.SaveResult` | src/ldb/CrawledDb.cpp:80-85 | a counter is saved under the url of the status's wire number: 0 enqueued, 1 pending, 2 ok, 3 curl error, 4 4xx, 5 5xx |
| `CrawledCounters.CrawledDb.OnFetched` | src/ldb/CrawledDb.cpp:87-96 | one record for each status that occurs, whose counts are those of the results; final results raise the four finished counters by their number and the enqueued one by nothing |
| `CrawledCounters.MergedCounts` | src/ldb/CrawledDb.cpp:73-85 | once everything saved is merged, in whatever batches and order, each retained day holds the sum saved for it, and has a bucket exactly when something was saved for it |
| `CrawledCounters.CounterReadsLatestDay` | src/ldb/CrawledDb.cpp:57-64 | a counter reads the sum of the latest day on which anything was saved for its status, whichever day that is |
| `CrawledCounters.CounterReadsToday` | src/ldb/CrawledDb.cpp:57-64 | with a record of today, be it zero, the counter reads today |
| `DailyQuota.EnqueueLoop.CalcHourTarget` | src/scheduler/default/EnqueueLoop.cpp:60-72 | what is left of the day divided by the hours left, truncated; undivided in the last hour |
| `DailyQuota.EnqueueLoop.CalcToEnqueueNow` | src/scheduler/default/EnqueueLoop.cpp:74-84 | the hour target less what is in progress, never negative |
| `QuotaRuns.RoundKeepsQuotaIff` | src/scheduler/default/EnqueueLoop.cpp:60-84 | on any day and with any part of what was saved still queued, a round keeps the number of urls pushed that day within the target, however many it finds, if and only if it asks for nothing or what is queued for today fits into the slack of its hour plus the older pushes that the enqueued counter still holds |
| `QuotaRuns.Overshoot` | src/scheduler/default/EnqueueLoop.cpp:60-84 | a round that asks for anything takes the day to exactly the target plus what is queued for today, less that slack and those older pushes |
| `QuotaRuns.GuardWhenMerged` | src/scheduler/default/EnqueueLoop.cpp:60-84 | with everything merged the condition says: the finished counter is within the target, or at most an hour is left, or nothing is recorded today and the older enqueued counter makes up for the excess |
| `QuotaRuns.QuotaOverDays` | src/scheduler/default/EnqueueLoop.h:16-19 | over runs of any number of days and with any lag of the merger, when every round meets that condition no day pushes more than the target |
| `QuotaRuns.QuotaIffGuarded` | src/scheduler/default/EnqueueLoop.cpp:22-84 | when every round finds as many urls as it asks for, no day pushes more than the target if and only if every round met the condition |
| `QuotaRuns.LaggingRoundsPileUp` | src/ldb/UrlsDaysDb.cpp:44-44 | for every n there is a run of n rounds, none merged before the next, that pushes n times the target on one day |
| `QuotaRuns.QuotaHolds` | src/scheduler/default/EnqueueLoop.h:16-19 | on the first day of the counters, with everything merged before each round and results that answer pushes: finished <= enqueued <= target after every step |
| `QuotaRuns.LastHourFillsQuota` | src/scheduler/default/EnqueueLoop.h:16-19 | on any day with an earlier round, a round of the last hour that finds enough urls fills the quota exactly, whatever the finished counter reads |
| `QuotaRuns.CountersReadSaved` | src/ldb/CrawledDb.cpp:41-64 | while nothing is older than today, the counters behind the quota read exactly what was saved, in whatever order and batches it was merged |
| `QuotaRuns.PushesReachCounter` | src/ldb/CrawledDb.cpp:49-55 | once the record of a round is merged, the enqueued counter of that day reads the day's other pushes plus those of the round |
| `QuotaRuns.ResultsReachCounters` | src/ldb/CrawledDb.cpp:41-47 | once what is saved for final results is merged, the day has exactly that many finished attempts more and no push more |
| `QuotaExample.QuotaBreaksOnSecondDay` | src/scheduler/default/EnqueueLoop.cpp:22-84 | a run of six steps over two days with target 1, everything merged before each round and each round asking what its counters give for the hours left at its own clock reading: two are pushed on the second day; only the last round fails the condition |
| `EnqueueRounds.EnqueueRound.LoopImpl` | src/scheduler/default/EnqueueLoop.cpp:22-41 | a round pushes the best of the list that the last pass ranked, at most what is due, fewer only if nothing else is crawlable, none twice if known urls lead to distinct targets; records exactly them, in the histories at the attempt time and in the counters under wire number 0 at the reading of that save; and is both a run of the `UrlDbRuns` steps, continuing any run, and a regular round of `QuotaRuns`, whatever part of what was saved the store has seen |
| `EnqueueRounds.EnqueueRound.CheckEnqueueImpl` | src/scheduler/default/EnqueueLoop.cpp:43-53 | nothing is searched when nothing is due |
| `RequestBatches.ReqBatch.GetReqs` | src/worker/ReqBatch.cpp:15-26 | the first requests up to the limit, and their number |
| `RequestBatches.ReqBatch.Slice` | src/worker/ReqBatch.cpp:28-39 | what follows the first requests; asking beyond the end is an error |
| `RequestBatches.ReqBatch.Acc` | src/worker/ReqBatch.cpp:5-5 | appends one request |
| `RequestBatches.ReqBatch.Merge` | src/worker/ReqBatch.cpp:7-9 | appends another batch, also to itself |
| `FetchDispatch.FetchLoop.SendToCurl` | src/worker/FetchLoop.h:112-138 | for every batch and limit for which the loop ends: the batch ends up empty; called is what the scheduler answered, in order; what goes back is, per url, the excess of each request over its answer, and only records of the batch |
| `FetchDispatch.FetchLoop.SendFirst` | src/worker/FetchLoop.h:115-136 | one pass takes the first requests off the batch, calls the answer and puts the difference back |
| `FetchDispatch.RequestsConserved` | src/worker/FetchLoop.h:112-138 | no request is ever lost; dispatched plus put back equals the input if and only if every answer stays within its request |
| `FetchDispatch.AdmissionConserves` | src/worker/FetchLoop.h:120-135 | with admission control as the scheduler dispatched plus put back is always exactly the input |
| `FetchDispatch.MinusCounts` | src/worker/FetchLoop.h:130-133 | subtracting sorted lists keeps, per url, as many records as one has more than the other |
| `FetchDispatch.PassMakesProgress` | src/worker/ReqBatch.cpp:15-39 | the pieces concatenate to the batch, and a pass shrinks it exactly when the batch limit is not zero |
| `FetchDispatch.LoopEndsIff` | src/worker/FetchLoop.h:112-138 | some number of passes empties the batch if and only if the limit is not zero or the batch is empty; with a limit of zero it never changes |
| `QueryIndex.QueryGroupMatcher.constructor` | src/core/QueryGroupMatcher.cpp:9-21 | the index lists a group under a query exactly when a group of that id has the query |
| `QueryIndex.QueryGroupMatcher.Match` | src/core/QueryGroupMatcher.cpp:23-43 | the ids appended are exactly those with a query occurring in the content, each once |
| `QueryIndex.QueryPages` | src/worker/QueryLoop.cpp:47-63 | per group id the scan-order list of pages that contain one of its queries, and no entry for a group without hits |
| `QueryIndex.SetIsHits` | src/core/QueryGroupMatcher.cpp:26-36 | the set collected through the index is the one a nested loop over groups and queries finds |

## Left out

- Kafka, leveldb, Scylla, curl, http, YAML and the command line: plumbing around the modelled logic.
- gRPC servers and clients, API v1 tokens and handlers: thin wrappers over libraries that are not part of this model.
- Url parsing, robots matching, the Aho-Corasick automaton, protobuf and JSON encoding: library code, entered as parameters; encode-decode is taken as the identity.
- `HostDb::tryCrawl` on plain urls, `HostDb::onRobotsTxt` and `UrlDb::setResult`: a variant that collects normalized urls, a test hook and an unused private copy of `_setStatus`.
- `UrlDb` and `CrawlAttempts` dump, parse and snapshot thread: a field-by-field copy with the same shape as the visit store's.
- `waitMerged`, sleeping and wake-ups: liveness and fairness are not modelled.
- `misc::MergeQueue`: one thread is taken to collect, copy, merge and switch in that order.
- A bound by `max_system_parallel_crawl`: the setting is loaded and never read.
- 64-bit overflow of counts and times: counts are unbounded integers; the one narrowing that the search performs is a precondition.
- TopSearch.EnqueueLoopFilter.SearchTop: asks for a positive target, as its caller guarantees, for twice the larger of target and known urls to fit the limit's 32-bit type, and for an hour counter within the day counter, which every state reached with positive events satisfies (`HourIsSuffixOfDay`, `PublishedHourWithinDay`).
- EnqueueRounds.EnqueueRound.LoopImpl: asks for the same 32-bit range and for positive events in the statistics; other threads do not run between its steps, while `UrlDbRuns` lets results come in between any two.
- FetchDispatch.FetchLoop.SendToCurl: is stated where the loop ends; a non-empty batch with a limit of zero, for which it does not, is described by `LoopEndsIff` alone.
- QuotaRuns.QuotaHolds: speaks of runs in which everything saved is merged before each round and every result answers an earlier push; `RoundKeepsQuotaIff` and `QuotaOverDays` ask for neither.
- Hours till midnight: a parameter of a round; the run in `QuotaExample.dfy` takes whole hours to the end of the UTC day.
- UrlDatabase.UrlDb.OnFetched: an entry without attempts, for which the code throws, is excluded by the class invariant; no operation creates one.
- UrlsDaysProtocol.UrlsDaysDb.MergeEventsFromQueue: the class has the pass of one thread; what other threads may do in between is in the protocol steps, and `PassIsRun` connects the two.
- UrlsDaysStore.UrlsDays.GetUTSV: carries the stored label of an entry, which a merge into a new entry leaves empty as the code does (`LabelsStayEmpty`); counts are found through the key.
- RequestBatches.ReqBatch.Slice: the exception is a flag in the result.
- Exact windows for statistics published by merging: the code does not establish them.
- Query group JSON round trips and fetch statistics: they would only add easy members.
