# Serposcope rank-check task, modelled in Dafny

This project models the deterministic decision logic of Serposcope's Google
rank-check job (`GoogleTask`). A run executes a batch of search queries
through a pool of proxies with a fixed number of worker threads. It turns
each result list into rank records for the tracked targets, compares them
with earlier runs and decides the final status of the run.

The model is functional. The target's match predicate and every store read
are parameters. The `Env` datatype carries the match predicate, the stored
best rank and the stored previous rank. Explicit arguments carry the
previous scores, the stored summaries, the runs found N days back and the
stored result pages. Store writes are returned values: the result page,
the rank records and the best snapshots. The in-memory summaries, which
`addRankCandidat` mutates, are returned too; writing them to the store
happens only in `finalizeSummaries`, which is left out.

Modules, one per file:

- `Wrappers` (`wrappers.dfy`): `Option` in place of Java's nullable
  references, and `GetOrDefault`.
- `Model` (`model.dfy`): targets, searches, proxies, rank and best records,
  summaries, result pages, runs, and the `UNRANKED` sentinel.
- `Ranking` (`ranking.dfy`): the first-match rank, the previous-rank
  default, the best-rank rule and its monotonicity.
- `Aggregation` (`aggregation.dfy`): `insertSearchResult`. That is the
  history lookup, the result page, the (group, target) scan, the best
  snapshots and the feeding of summaries.
- `Setup` (`setup.dfy`): the proxy fallback and thread clamp of `doRun`,
  plus `initializeTargets` and `setCustomTargets`.
- `History` (`history.dfy`): `initializePreviousRuns` and `getHistory`.
- `Lifecycle` (`lifecycle.dfy`): `shouldStop` and the final status decision
  of `doRun`.

Points where the code's behaviour is easy to misread:

- `doRun` only lowers `maxThreads` to the proxy count (GoogleTask.java:147-151).
  A maximum of 0 gives 0 threads. A negative maximum is kept, and
  `new Thread[nThread]` (line 185) would throw.
  `Setup.WorkerSetup` promises a thread only when `maxThreads >= 1`.
- The status test is `totalSearch - searchDone > 0` (GoogleTask.java:170-171).
  It matches `searchDone == totalSearch` only when `searchDone <= totalSearch`.
  `Lifecycle.StatusMatchesStopCondition` takes that as a hypothesis.
- `setCustomTargets` reads previous scores only when `previousRun` is set
  (GoogleTask.java:109-110). Only `initializePreviousRuns`, inside `doRun`, sets
  it (line 334, called at line 131). See "## Findings".

## Model

| member | source | states |
|---|---|---|
| `Ranking.FirstMatchFrom` | core/src/main/java/com/serphacker/serposcope/task/google/GoogleTask.java:262-269 | The scan returns the index of the first URL the target matches, with every earlier URL failing the match, or None exactly when no URL from the start index matches |
| `Ranking.ComputeRank` | core/src/main/java/com/serphacker/serposcope/task/google/GoogleTask.java:260-269 | The matched URL is present iff some URL matches. The rank is then its 1-based position, the URL is the one at that position, and all earlier URLs fail the match. With no match the rank is UNRANKED and the URL is null |
| `Ranking.RankPositionIsFirstMatch` | core/src/main/java/com/serphacker/serposcope/task/google/GoogleTask.java:260-269 | On a list shorter than UNRANKED, the rank differs from UNRANKED iff some URL matches. A real rank lies in 1..\|urls\|, names the first matching URL and comes after only non-matching URLs |
| `Ranking.PreviousRank` | core/src/main/java/com/serphacker/serposcope/task/google/GoogleTask.java:271-274 | The previous rank is UNRANKED without a previous run, and otherwise the rank stored by the previous run for the same (group, target, search) |
| `Ranking.BestUpdate` | core/src/main/java/com/serphacker/serposcope/task/google/GoogleTask.java:285-288 | A best snapshot is written iff the rank is not UNRANKED and is <= the stored best. It carries the triple, the rank, the run's start time and the matched URL |
| `Ranking.TieStillWritesBest` | core/src/main/java/com/serphacker/serposcope/task/google/GoogleTask.java:285-288 | A rank equal to the stored best still writes a snapshot, with the same rank, this run's start time and URL |
| `Ranking.BestNeverWorsens` | core/src/main/java/com/serphacker/serposcope/task/google/GoogleTask.java:285-288 | After one rank the stored best is the minimum of the old best and that rank, and is unchanged by UNRANKED, so it never gets worse |
| `Ranking.BestOverIsMinimum` | core/src/main/java/com/serphacker/serposcope/task/google/GoogleTask.java:285-288 | Over a sequence of runs, the best is the minimum of the starting best and every rank that is not UNRANKED, and it is attained by one of them |
| `Aggregation.Entries` | core/src/main/java/com/serphacker/serposcope/task/google/GoogleTask.java:244-248 | One page entry per URL, in the order of the URLs, each holding its URL and its historical positions |
| `Aggregation.BuildSerp` | core/src/main/java/com/serphacker/serposcope/task/google/GoogleTask.java:243-249 | The stored page belongs to this run and search, is stamped with the run's start time, and lists the URLs in order, each with the positions its history lookup gives |
| `Aggregation.SerpKeepsUrls` | core/src/main/java/com/serphacker/serposcope/task/google/GoogleTask.java:243-248 | Reading the URLs back from the stored page gives exactly the scraped list |
| `Aggregation.RankTarget` | core/src/main/java/com/serphacker/serposcope/task/google/GoogleTask.java:257-288 | The record of one target carries this run, group, target and search, the first-match rank and URL, and the previous rank. A best is emitted iff the rank is not UNRANKED and is <= the stored best, and that best carries the rank, start time and URL |
| `Aggregation.SecondUrlScenario` | core/src/main/java/com/serphacker/serposcope/task/google/GoogleTask.java:257-288 | A target matching only the second of three URLs, with previous rank 5 and best 4, gets rank 2, that URL, previous rank 5 and a new best of 2 |
| `Aggregation.RankTargets` | core/src/main/java/com/serphacker/serposcope/task/google/GoogleTask.java:257-290 | The outcomes of a group's targets come one per target, in the group's target order |
| `Aggregation.RankGroups` | core/src/main/java/com/serphacker/serposcope/task/google/GoogleTask.java:251-291 | The outcomes of a search come one per (listed group, registered target), and each such pair gets one. A group with no registered targets yields none |
| `Aggregation.FeedAppendsOwnRecords` | core/src/main/java/com/serphacker/serposcope/task/google/GoogleTask.java:282-283 | Each summary receives exactly the records of its own target, in order, and keeps everything else |
| `Aggregation.Feed` | core/src/main/java/com/serphacker/serposcope/task/google/GoogleTask.java:282-283 | Feeding records to the summaries keeps the set of target ids that have a summary |
| `Aggregation.RecordsOfRegisteredTargets` | core/src/main/java/com/serphacker/serposcope/task/google/GoogleTask.java:251-283 | Every record of a search has this run and search, a listed and registered group, and a target that has a summary to feed |
| `Aggregation.BestsComeFromRecords` | core/src/main/java/com/serphacker/serposcope/task/google/GoogleTask.java:276-288 | Every best snapshot matches a rank record of the same triple, rank and URL, whose rank passed the best rule, and is stamped with this run's start time |
| `Aggregation.RecordsCoverRegisteredTargets` | core/src/main/java/com/serphacker/serposcope/task/google/GoogleTask.java:252-283 | For every listed group with registered targets, each of its targets' first-match records is among the search's records |
| `Aggregation.PassingRecordsHaveBests` | core/src/main/java/com/serphacker/serposcope/task/google/GoogleTask.java:285-288 | Every record whose rank is not UNRANKED and is <= the stored best comes with the best snapshot of its triple, carrying this run's start time and its URL |
| `Aggregation.InsertSearchResult` | core/src/main/java/com/serphacker/serposcope/task/google/GoogleTask.java:243-294 | A completed search yields its page: this run, this search, the start time, the URLs in order with their historical positions. Its records are one per listed (group, registered target) pair: each is the first-match record of a registered target of its group, and each pair's first-match record is among them. Every best carries this run's start time and is backed by a passing record, and every passing record yields its best with this run's start time and URL. The summaries keep their keys and every field except the candidates, which gain exactly their own target's records |
| `Aggregation.ProcessCompletedSearch` | core/src/main/java/com/serphacker/serposcope/task/google/GoogleTask.java:239-249 | The history used for the page has offsets only among 1, 7, 30 and 90, is empty without a previous run, and holds an offset iff a run exists that many days back and stored a page for the search, and then holds the page stored by the first such run. The page's entries carry the positions looked up in that history |
| `Setup.ProxyPool` | core/src/main/java/com/serphacker/serposcope/task/google/GoogleTask.java:140-145 | The pool is never empty. An empty configuration becomes exactly one direct connection, and a non-empty one is kept as is |
| `Setup.ThreadCount` | core/src/main/java/com/serphacker/serposcope/task/google/GoogleTask.java:147-151 | The thread count is at most the maximum and at most the proxy count, and equals one of them, so it is their minimum |
| `Setup.WorkerSetup` | core/src/main/java/com/serphacker/serposcope/task/google/GoogleTask.java:139-151 | At least one proxy exists, threads never outnumber proxies, there is at least one thread when the maximum is positive, and the count is min(maxThreads, \|proxies\|) |
| `Setup.GroupTargets` | core/src/main/java/com/serphacker/serposcope/task/google/GoogleTask.java:319-320 | Grouping targets keeps every group that already had a list |
| `Setup.GroupTargetsAppendsInOrder` | core/src/main/java/com/serphacker/serposcope/task/google/GoogleTask.java:319-320 | A group's list is what it held plus that group's targets in input order, and a group has a list iff it had one or some target belongs to it |
| `Setup.SeedSummariesFresh` | core/src/main/java/com/serphacker/serposcope/task/google/GoogleTask.java:321-322 | Each target id gets the fresh summary of the last target with that id, with its previous score or 0. Other ids are untouched |
| `Setup.SeedSummaries` | core/src/main/java/com/serphacker/serposcope/task/google/GoogleTask.java:321-322 | Seeding gives a summary to exactly the ids already present plus the ids of the targets |
| `Setup.ApplyStoredLastWins` | core/src/main/java/com/serphacker/serposcope/task/google/GoogleTask.java:325-330 | A stored id ends up with the last stored summary for that id, and ids with no stored summary are untouched |
| `Setup.ApplyStored` | core/src/main/java/com/serphacker/serposcope/task/google/GoogleTask.java:325-330 | Putting back stored summaries gives a summary to exactly the ids already present plus the stored ids |
| `Setup.ApplyStoredReplaces` | core/src/main/java/com/serphacker/serposcope/task/google/GoogleTask.java:325-330 | A stored id ends up with one of the stored summaries for that id, and every other id keeps its summary |
| `Setup.PreviousScores` | core/src/main/java/com/serphacker/serposcope/task/google/GoogleTask.java:311-315 | The previous scores are empty without a previous run, and otherwise are those stored for that run |
| `Setup.InitializeTargets` | core/src/main/java/com/serphacker/serposcope/task/google/GoogleTask.java:310-331 | A group has a list iff some target belongs to it, and the list holds exactly its targets in input order. Every listed target has a summary. Summaries exist exactly for the target ids, plus the stored ids on an update run. A target id not taken over by a stored summary starts with the group of a target with that id, this run, no candidates, and the previous run's score or 0. On an update run, a stored id holds a stored summary for that id |
| `Setup.CustomTargets` | core/src/main/java/com/serphacker/serposcope/task/google/GoogleTask.java:106-123 | For a supplied target list and a given previous run: the same grouping in input order, a summary for every listed target, summaries exactly for the target ids, each starting with the group of a target with that id, this run, no candidates, and the previous run's score or 0 |
| `Setup.CustomTargetsAsWritten` | core/src/main/java/com/serphacker/serposcope/task/google/GoogleTask.java:106-123 | The tables setCustomTargets builds before doRun has set the previous run: summaries exactly for the target ids, every previous score 0 |
| `Setup.CustomTargetsIgnorePreviousScore` | core/src/main/java/com/serphacker/serposcope/task/google/GoogleTask.java:106-123 | With previous run 7 storing a score of 55 for target 1, the tables as written seed 0 and the corrected tables seed 55 |
| `Setup.GroupTargetsFromEmpty` | core/src/main/java/com/serphacker/serposcope/task/google/GoogleTask.java:317-320 | Grouping a target list from empty tables gives a list exactly to the groups that have targets, holding their targets in input order |
| `Setup.SeedSummariesFromEmpty` | core/src/main/java/com/serphacker/serposcope/task/google/GoogleTask.java:321-322 | Seeding empty tables gives each id a summary for that id and the group of a target with that id, this run, no candidates and the previous score or 0 |
| `Setup.SeededTablesCover` | core/src/main/java/com/serphacker/serposcope/task/google/GoogleTask.java:317-322 | When every target id has a summary, every target listed under a group belongs to that group and has a summary |
| `Setup.StoredSummariesOverride` | core/src/main/java/com/serphacker/serposcope/task/google/GoogleTask.java:325-330 | On an update run, the last stored summary for a target id replaces the fresh one |
| `History.RunsByDay` | core/src/main/java/com/serphacker/serposcope/task/google/GoogleTask.java:341-346 | An offset has an entry iff it is listed and some run exists that many days back, and the entry is the first such run |
| `History.PreviousRunsByDay` | core/src/main/java/com/serphacker/serposcope/task/google/GoogleTask.java:333-347 | The day table's keys are within {1, 7, 30, 90} and it is empty without a previous run. Otherwise an offset is a key iff a run exists that many days back, and maps to the first one |
| `History.GetHistory` | core/src/main/java/com/serphacker/serposcope/task/google/GoogleTask.java:349-359 | The history keeps exactly the offsets of the table whose run stored a page for the search, each mapped to that page |
| `History.HistoryForSearch` | core/src/main/java/com/serphacker/serposcope/task/google/GoogleTask.java:333-359 | A search's history uses only offsets 1, 7, 30 and 90 and is empty without a previous run. An offset is present iff a run exists that many days back and it stored a page for the search, and it holds the page stored by the first such run |
| `Lifecycle.ShouldStop` | core/src/main/java/com/serphacker/serposcope/task/google/GoogleTask.java:212-222 | Workers stop iff every search is done or the run is interrupted |
| `Lifecycle.FinishRun` | core/src/main/java/com/serphacker/serposcope/task/google/GoogleTask.java:170-177 | The status is DONE_WITH_ERROR iff searches remain, and the errors are then the positive shortfall. Otherwise it is DONE_SUCCESS with the run unchanged |
| `Lifecycle.StatusMatchesStopCondition` | core/src/main/java/com/serphacker/serposcope/task/google/GoogleTask.java:170-177 | With done <= total, success holds iff uninterrupted workers would stop, and on error the errors plus the done searches make the total |
| `Lifecycle.AllDoneScenario` | core/src/main/java/com/serphacker/serposcope/task/google/GoogleTask.java:170-177 | Three searches dispatched and three done give DONE_SUCCESS with the run unchanged |

## Findings

| source | as written | input that shows it | evidently intended | confidence | as-written member | corrected member |
|---|---|---|---|---|---|---|
| core/src/main/java/com/serphacker/serposcope/task/google/GoogleTask.java:106-123 | `setCustomTargets` seeds previous scores from `previousRun`. A custom run must set its targets before `doRun`, because `doRun` skips `initializeTargets` (lines 132-135). `previousRun` is only assigned inside `doRun` (line 334, called at line 131). Custom targets therefore always start with previous score 0, while the same run's ranks do read their previous rank from the previous run (lines 271-274). | A previous run 7 that stored score 55 for target 1: the custom tables seed 0. | Seed the previous run's score, as the `previousRun != null` test at line 109 suggests. | medium, not executed | `Setup.CustomTargetsAsWritten` | `Setup.CustomTargets` |

## Left out

- Threads and their start, join and interrupt (`startThreads`, `waitForThreads`, `interruptThreads`). These are concurrency. The counters are plain integers.
- The blocking queue, `AtomicInteger` and `ConcurrentHashMap`. These are also concurrency.
- The worker loop. `GoogleTaskRunnable` is not part of this model, so `searchDone <= totalSearch` appears as a lemma hypothesis rather than as a proved invariant.
- The progress percentage of `incSearchDone`. It is computed in `float` arithmetic.
- `initializeSearches`. It chooses between two store listings and shuffles them with `Collections.shuffle`. Both are store reads and randomness. Only the search count reaches the model, as `totalSearch`.
- The captcha solver: its creation, `init`, `close`, and the captcha counter of `incCaptchaCount`. These are foreign calls and store writes.
- `finalizeSummaries`. It depends on `GoogleTargetSummary.computeScoreBP`, which is not part of this model. The model invents no scoring formula.
- The internals of summary accumulation (`addRankCandidat`). The model records the rank records fed to a summary, in order, as its candidates.
- `GoogleTarget.match`. It is not part of this model and enters as the uninterpreted `Env.matches`.
- `GoogleSerpEntry.fillPreviousPosition`. It is not part of this model and enters as the uninterpreted `fill`.
- The value of `UNRANKED`. `GoogleRank` is not part of this model, and the constant is taken as 32767 (`Short.MAX_VALUE`).
- `ProxyRotator`, `genScraper`, logging, and the count of proxies that failed. These are foreign code and I/O.
- The iteration order of the `ConcurrentHashMap` `previousRunsByDay` (line 60). `History.GetHistory` takes the order in which the table yields its offsets as an input listing exactly the table's keys.
- Ranking.RankPositionIsFirstMatch: the direction "UNRANKED implies no match" is stated only for lists shorter than UNRANKED. A match at position 32767 would collide with the sentinel.
- Lifecycle.StatusMatchesStopCondition: assumes `0 <= searchDone <= totalSearch`, because the worker loop that keeps it is not modelled.
- Aggregation.InsertSearchResult: takes the history map as an input. `Aggregation.ProcessCompletedSearch` composes it with `History.HistoryForSearch`, which is a method because of its loop.
- `Run.status`, `progress`, `captchas` and `day`. They are not used by the modelled decisions, so `Run` keeps only its error count; its id and start time are those of `RunContext`. `Status` keeps only the two terminal values `doRun` returns.
- The `NegativeArraySizeException` that `startThreads` (line 185) throws for a negative thread count. `Setup.ThreadCount` keeps a negative maximum as the code does, and thread creation is not modelled.
