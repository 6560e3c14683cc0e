# Verification of the gates and the dashboard

This project models the hardest logic of a verification catalog (`gates/`) and its read-only CI dashboard
(`dashboard/`), and proves what that logic promises. `dafny verify dfyconfig.toml` checks all of it.

| file | what it models |
|---|---|
| `Service.dfy`, `HeadState.dfy` | the dashboard's reading protocol: page fetches, background passes, head beats, forgetting of kept state, revocation and the disk store, as sections of one step system |
| `GenerationFeeds.dfy` | the merged-pull and token-history readers that a reset must outrun, with saving outside the lock |
| `GhApi.dfy` | the budgeted GitHub reader and its ETag cache, with any number of requests in flight |
| `BotHistory.dfy` | the scan of bot runs that stops early, and when its history is called complete |
| `UsageArtifacts.dfy` | the bounded, cached scan of usage artifacts, and when token history is not called partial |
| `OwnerSet.dfy` | the budgeted queue of pull requests, changed heads first |
| `LaneHistory.dfy`, `LaneRecords.dfy` | slot-second accounting of a lane, the sliding sweep over job spans, the waits and samples a refresh keeps, and the reader of what it publishes |
| `MergeGrant.dfy` | lines in their YAML context, the diff over those contexts, and what a grant keeps |
| `Glob.dfy` | globs compiled to patterns, and their meaning segment by segment |
| `AffectedTests.dfy` | which tests a change reaches through imports and runner configs, and tsconfig inheritance |
| `Shards.dfy` | cutting requirements into shards |
| `Common.dfy` | shapes shared by the others |

How the model is built:

- A section the source runs under a lock or a condition is one step, and so is one store write. A run is any
  sequence of enabled steps, so every interleaving of the threads is covered. The classes (`DashboardService`,
  `Feed`, `GitHubAPI`) hold the source's fields, and each method is proved to change them exactly as its step does.
- Beside what every run keeps, each protocol has what one undisturbed pass, beat, read or reset leaves, so that a
  step that did nothing would not do.
- The network, the disk's failures and the work of other processes are arbitrary answers. Times are whole
  seconds, averages are exact fractions rounded as the source rounds them, and documents are values.
- A diff is any function whose blocks tile both sequences and whose equal blocks are equal. A line pattern and a
  path pattern are any predicates.

Where the code falls short of what one would expect of it, the model keeps the code, and the project shows an input
and says when the expectation holds:

- The context of a line is spelt with U+001F between keys and U+0000 before the line, and neither is escaped. A
  security line can therefore be lost without a hit when a file's text holds either one. Among files written over
  an alphabet that has a space and `a`, every named line is kept if and only if the alphabet has neither
  (`MergeGrant.KeptExactlyWithoutSeparators`).
- A refresh of the GitHub reader keeps an exact count if and only if it begins with no request in flight that may
  still be confirmed (`GhApi.ExactExactlyWhenSettled`). One reserved request is enough to break it
  (`GhApi.BeginInFlightBreaksTheCount`). The callers each own their reader and wait for its requests before the
  next refresh, so theirs begin settled.
- A reset that clears no documents after the generation is raised, as the one inside a page fetch, keeps every
  earlier document due for removal if and only if each document of the generation it ends is already due
  (`GenerationFeeds.BareResetKeepsAllDue`); `GenerationFeeds.BareResetLeavesDocuments` is a run in which it is not.
  What was written before the last reset that does clear is removed in every run, page fetches included.
- Compiled globs and whole segments. A path is read alike by every glob of whole-segment stars if and only if it
  has no newline (`Glob.PathsReadAlike`). A glob with no `**` segment is read alike on every newline-free path if and
  only if it has no two stars together or names a newline (`Glob.GlobsReadAlike`), and so is a glob of one segment
  unless it is `**` itself, which is read alike (`Glob.SegmentsReadAlike`). Where a `**` segment stands beside stars
  inside another, both happen, and there only these are proved: whole-segment stars are read alike
  (`Glob.CompiledMeansSegments`), and any glob at all accepts whatever its segments fit (`Glob.FittingIsAccepted`).
- The sweep over job spans looks, for each sample, at the spans that start before its interval ends and ended at most a
  minute before it begins (`LaneHistory.Intervals`). That gives every sample, whatever the samples, what all spans give
  it if and only if no span ends more than a second before it starts (`LaneHistory.SweptWholeExactly`; in whole
  seconds, as the times are written); `LaneHistory.UnorderedSpanIsDropped` is a span that does. Such a span comes from
  a finish that a runner's earlier record gave, put on a later start: a record comes out of order if and only if it
  takes a finish from before its start (`LaneRecords.NewestIsInOrder`), and the sweep over the kept jobs agrees with
  all of them if and only if no row that counts ends more than a second before it starts or, still holding a slot,
  starts more than a second after now (`LaneRecords.JobsAreSweptWholeExactly`).
- The counts a lane publishes are sums over its scale sets, and a sum can be over a cap its parts keep: two sets of 33
  runners are read, and the history published with them is refused whole (`LaneRecords.SumsAreRefused`). With a limit,
  or samples of no more than 64 slots, a refresh's history is accepted if and only if what it says of the lane is
  inside the reader's caps (`LaneRecords.Capture`).
- A reading handed over by a restart never shows a green, whenever a page is fetched, if and only if no row on disk
  that is unavailable and not stale holds an unmarked green with the time of its checks
  (`Service.HandedOverIsNeverGreen`; `Service.UnavailableGreenIsShown` is such a row). No reading this version writes
  does.

Assumptions, stated as preconditions or in the run's events: a job completes no later than its run was last updated;
a job has one completion time wherever it is read, and a job that a scan shows to one role and a pull request to
another is shown to both by that scan; listings come newest first; no sample is after now; a 304 is sent only for the
content its ETag names; listings of one pass name each repository once; the documents on disk were written by this
version.

## Model

| member | source | states |
|---|---|---|
| `Service.ForgottenIsNeverShown` | dashboard/service.py:88-113 | in every reachable state after kept state was forgotten, the reading on show is not a handed-over one and holds no handed-over row, whatever pass or beat was under way; forgetting has happened once and cannot happen again |
| `Service.PublishSettlesTheDisk` | dashboard/service.py:247-263 | when the pass that was under way at the forgetting publishes, no document on disk holds anything handed over |
| `Service.ClearedWithoutAPass` | dashboard/service.py:88-103 | without such a pass the disk is clean once the forgetting threads have cleared it |
| `Service.DiskStaysClean` | dashboard/service.py:220-263 | from then on the disk stays clean under every run without a restart, whatever passes and beats follow |
| `Service.DiskIsCleanOncePublished` | dashboard/service.py:220-263 | from the publish of the pass that was under way at the forgetting, through any run without a restart, the disk holds nothing handed over |
| `Service.GreenWasReadJustNow` | dashboard/service.py:396-426 | a pull request a page shows as merge-ready sits in a repository that is neither stale nor unavailable, and a full pass of this process read its checks 0 to 180 seconds before |
| `Service.BeatReplacesOnlyWhatItCopied` | dashboard/service.py:309-339 | at most one pass or beat is in flight, and an answered beat that passes the final check is over the very reading it copied, so no installed reading is lost to an older one |
| `Service.ReachableKeeps` | dashboard/service.py:220-339 | every reachable state keeps exclusion, forgetting once, nothing handed over left without a thread due to clear it, and greens that a pass read |
| `Service.RunKeeps` | dashboard/service.py:209-339 | those four invariants survive any sequence of enabled steps, restarts included |
| `Service.ExclusiveKept` | dashboard/service.py:289-339 | each step keeps: the refresh flag is up exactly while a pass is under way, the beat flag exactly while a beat is, never both, and a beat's copy is the reading on show until something is forgotten |
| `Service.ForgetsOnceKept` | dashboard/service.py:34-44 | each step keeps: forgetting at most once, and no pass that started after it finds the cache mark still up |
| `Service.NoneShownKeptByPass` | dashboard/service.py:220-263 | no step of a pass brings a handed-over row back into what is, or is about to be, shown |
| `Service.NoneShownKeptByBeat` | dashboard/service.py:309-339 | no step of a beat does either |
| `Service.NoneLeftKept` | dashboard/service.py:201-263 | each step keeps: whatever the caches or the disk hold of the old state, some thread is still due to clear it |
| `Service.ForgottenKept` | dashboard/service.py:88-113 | each step keeps the three invariants of forgetting together |
| `Service.SettledKept` | dashboard/service.py:247-263 | no step but a restart puts anything handed over back on a clean disk |
| `Service.GreenIsReadInPass` | dashboard/service.py:220-245 | merging, failing, crashing at any point past the read, forgetting, saving and publishing never make a green whose checks no pass read |
| `Service.GreenIsReadInBeat` | dashboard/service.py:309-339 | neither does a beat, a revocation by a beat, or a restart |
| `Service.MergeIsHonest` | dashboard/service.py:139-160 | a row carried over from the last reading is never an unmarked green: every green of a merged reading that is not stale was read by this pass or is already accounted for |
| `Service.MergedRowIsHonest` | dashboard/service.py:139-160 | each name's merged row: read by this pass, or carried over as stale |
| `Service.MergeIsClean` | dashboard/service.py:139-160 | merging with a clean reading gives a clean one |
| `Service.WithoutKeptIsHonest` | dashboard/service.py:105-113 | taking the handed-over rows out adds no green |
| `Service.HandedOverIsNeverGreen` | dashboard/state_store.py:190-211 | whenever a page is fetched, a handed-over reading shows no green, exactly when no stored row that is unavailable and not stale holds a green that is unmarked and says when its checks were read |
| `Service.UnavailableGreenIsShown` | dashboard/state_store.py:190-211 | a stored row that does, and is shown green |
| `Service.TransientIsHonest` | dashboard/service.py:178-187 | a pass that could not read leaves no green it has no reading for |
| `Service.GreenRowWasFresh` | dashboard/service.py:341-353 | a green on the page was green, unmarked and within its freshness in the reading itself |
| `Service.FindRow` | dashboard/service.py:139-160 | the last row of that repository, or none holds it |
| `Service.ByName` | dashboard/service.py:139-160 | the dictionary of rows gives each repository the last of its rows |
| `Service.MergeRows` | dashboard/service.py:139-160 | the dictionaries filled in place give every name its merged row, in the listed order; what that row is, MergeMeans says |
| `Service.Merge` | dashboard/service.py:139-160 | the imperative merge: a listed name the pass read has the last row it read; one it did not read and lost access to (authentication failed, forbidden, not found) has no pull requests and is unavailable; any other keeps its last sampled row, marked stale; the rest are unavailable |
| `Service.MergeMeans` | dashboard/service.py:139-160 | the same of the merged reading of the protocol, name by name |
| `Service.CollectMeans` | dashboard/service.py:226-245 | where a pass goes from its answer: any of the three access codes anywhere in it revokes, known names are merged and kept, and any other failure shows the last reading as stale, or a blank one |
| `Service.PassShowsAndSaves` | dashboard/service.py:220-263 | a pass that nothing disturbs and that lost no access shows exactly what it read, name by name, and leaves it and the caches on disk |
| `Service.LostAccessIsDropped` | dashboard/service.py:201-245 | a pass that lost access leaves nothing in the caches and nothing on disk; it shows what it read of the rest, or a blank reading |
| `Service.FailedPassKeepsLast` | dashboard/service.py:236-241 | a pass that failed for another reason changes nothing on disk and shows the last reading with every sampled row stale |
| `Service.CrashForgetsKept` | dashboard/service.py:242-244 | a crash while something handed over is left forgets it, clears the disk, and shows the last reading as stale |
| `Service.CrashForgetsOnce` | dashboard/service.py:242-244 | any later crash clears nothing |
| `Service.CrashMayCome` | dashboard/service.py:226-245 | a crash may come once the pass has read, past a revocation too, and until its last write |
| `Service.ForgettingMeans` | dashboard/service.py:88-113 | forgetting drops a handed-over reading whole, blanks exactly the handed-over rows of one made here, and happens at most once |
| `Service.ForgetThenClear` | dashboard/service.py:88-103 | the thread that forgot clears the disk |
| `Service.BeatShowsHeads` | dashboard/service.py:309-339 | a beat that nothing disturbs shows its heads over the reading it copied, and touches neither the disk nor the publishing time |
| `Service.FailedBeatChangesNothing` | dashboard/service.py:309-339 | one that failed, access not lost, changes nothing at all |
| `Service.LostBeatIsDropped` | dashboard/service.py:309-339 | one that lost access leaves nothing on show, in the caches or on disk |
| `Service.RestartMeans` | dashboard/service.py:48-79 | a restart keeps exactly the usable documents, marked, shows the reading among them with every row marked and every available row stale, and has something to forget exactly when there was any |
| `Service.RestoredMeans` | dashboard/service.py:71-79 | the constructor is that restart |
| `Service.CachesAreClearedFirst` | dashboard/service.py:209-223 | a pass that starts after a forgetting empties the caches before it reads, once |
| `Service.ShownRowMeans` | dashboard/service.py:341-353 | a row on a page is stale exactly when it was, or is available and was sampled more than three minutes before |
| `Service.DashboardService.constructor` | dashboard/service.py:48-79 | what a restart restores: the reading with every row marked, and no publishing time when there is one |
| `Service.DashboardService.ClaimPass` | dashboard/service.py:289-302 | a pass is claimed exactly when one is due and neither a pass nor a beat is in flight |
| `Service.DashboardService.StartPass` | dashboard/service.py:209-218 | a pass takes the reading, the forget count and the cache mark, and lowers the mark |
| `Service.DashboardService.ForgetKept` | dashboard/service.py:88-103 | the section that forgets does so once, counts it, and drops what was handed over |
| `Service.DashboardService.PublishPass` | dashboard/service.py:247-263 | publishing installs the result, cleaned when something was forgotten meanwhile, and says whether the store must be cleared |
| `Service.DashboardService.StartBeat` | dashboard/service.py:309-339 | a beat copies the reading exactly when one is due, there is one, and nothing else is in flight |
| `Service.DashboardService.FinishBeat` | dashboard/service.py:309-339 | a beat's answer is installed exactly when no pass started or finished and nothing was forgotten since it copied |
| `HeadState.RememberPull` | dashboard/head_state.py:262-281 | a detailed pull request is kept under the head it was built from and under no other, and a head whose checks did not succeed leaves nothing green |
| `HeadState.ShowStored` | dashboard/head_state.py:319-326 | stored detail is never shown green; it keeps its number, commit and check time, shows the age of its checks, and says when its head moved or its check state changed |
| `HeadState.ReconcilePull` | dashboard/head_state.py:361-369 | a beat never leaves a pull request green: detail is shown as stored detail is, and what was never detailed or says nothing to contradict stays as it is |
| `HeadState.BeatNeverGreen` | dashboard/head_state.py:427-452 | no row of a beat's reading is green, and a beat marks no row as handed over |
| `HeadState.CompleteBeatCounts` | dashboard/head_state.py:392-443 | after a complete head list a repository holds a pull request exactly when a head names it: as often as its rows held it, or as often as the heads name one they did not |
| `HeadState.CompleteBeatRows` | dashboard/head_state.py:392-443 | each row keeps its open pull requests in order, each reconciled with its head, and after them come those first seen; new rows are stale |
| `HeadState.CutBeatRows` | dashboard/head_state.py:427-441 | after a cut head list every row holds what it held, in order, each pull request reconciled with its head if there is one |
| `HeadState.BeatKeepsReading` | dashboard/head_state.py:427-452 | the rest of the reading stays, but for the time of its heads |
| `HeadState.FoldIgnoresCase` | dashboard/head_state.py:407-414 | two repository names are the same exactly when they differ at most in the case of ASCII letters |
| `HeadState.AddUnseenNeverGreen` | dashboard/head_state.py:417-424 | pull requests first seen by a beat join their rows without a green |
| `HeadState.WithholdIfOld` | dashboard/head_state.py:462-478 | a green stays exactly while its checks were read 0 to 180 seconds ago and neither it nor its repository is stale, and then the row is unchanged |
| `GenerationFeeds.EarlierReadersAreNeverShown` | dashboard/outcomes.py:288-329 | in every run, with resets anywhere, what the page shows was read by a reader of the current generation |
| `GenerationFeeds.EarlierDocumentsAreGone` | dashboard/live_service.py:40-121 | in every run, resets by page fetches included: once the resets have cleared and the finish step of a reader from before the last clearing reset has ended, none of its documents are on disk |
| `GenerationFeeds.AllEarlierDocumentsAreGone` | dashboard/live_service.py:99-195 | the same for every generation before the one on show, in runs whose page-fetch resets each come when the documents they leave are due for removal |
| `GenerationFeeds.BareResetKeepsAllDue` | dashboard/live_service.py:165-195 | a reset that clears nothing keeps every earlier document due for removal exactly when each document of the generation it ends is already due |
| `GenerationFeeds.StaleIsDueKept` | dashboard/outcomes.py:305-324 | each step of any kind keeps: what was due for removal still is, because the last check follows every save, and a clearing reset makes all that went before due |
| `GenerationFeeds.CurrentKept` | dashboard/live_service.py:40-52 | each step keeps: what is shown is of the current generation |
| `GenerationFeeds.RunKeeps` | dashboard/live_service.py:40-121 | through every run: what is shown is current, and what was written before the last clearing reset is due for removal |
| `GenerationFeeds.KeptIsShownAndSaved` | dashboard/outcomes.py:296-329 | a read of the current generation that nothing disturbs and that kept something is shown, and both its documents stay on disk |
| `GenerationFeeds.LostIsCleared` | dashboard/live_service.py:99-121 | one that lost access leaves nothing on disk: the usage shows nothing, and the outcomes start a new generation |
| `GenerationFeeds.NothingChangesNothing` | dashboard/live_service.py:99-121 | a usage read that found nothing new leaves what is shown and what is saved |
| `GenerationFeeds.ResetThenClear` | dashboard/outcomes.py:288-294 | a reset starts a new generation whatever is under way, and its clear empties the disk |
| `GenerationFeeds.ClearsBalance` | dashboard/outcomes.py:288-294 | through every run, the clears still due are the clearing resets less the clears made |
| `GenerationFeeds.BareResetLeavesDocuments` | dashboard/live_service.py:165-195 | a run in which a page fetch's reset is not covered and its document outlives every thread |
| `GenerationFeeds.SavedIsReached` | dashboard/live_service.py:99-121 | that run starts from a state the first one reaches |
| `GenerationFeeds.Feed.Reset` | dashboard/outcomes.py:288-294 | a reset raises the generation and replaces the reader |
| `GenerationFeeds.Feed.Start` | dashboard/outcomes.py:296-303 | one read at a time starts, and takes the generation |
| `GenerationFeeds.Feed.Finish` | dashboard/outcomes.py:305-324 | a read that ends in an earlier generation shows and saves nothing |
| `GhApi.ReadsAreUnconditional` | dashboard/gh_api.py:142-175 | every value any caller got, across threads, eviction, export and import, is what an unconditional read would have returned when GitHub answered (sections 13.1.2 and 15.4.5 of RFC 9110) |
| `GhApi.BudgetIsExact` | dashboard/gh_api.py:142-175 | in every run whose refreshes begin settled, `calls` is the requests that took a unit since begin less those of them answered 304, and between 0 and `max_calls` |
| `GhApi.ExactExactlyWhenSettled` | dashboard/gh_api.py:96-108 | a refresh keeps that count exact in all its continuations exactly when it begins with no request in flight that is reserved, asked with an ETag, or answered 304 |
| `GhApi.LateConfirmation` | dashboard/gh_api.py:142-175 | each of those three kinds, left from before, has a continuation that breaks the count |
| `GhApi.FaithfulKept` | dashboard/gh_api.py:110-127 | each step keeps: every kept, exported or in-flight answer is the content of its ETag |
| `GhApi.CountedKept` | dashboard/gh_api.py:212-218 | each step keeps the count, a unit for every request in flight of this refresh, and no confirmable one of an earlier refresh |
| `GhApi.RunKeeps` | dashboard/gh_api.py:96-175 | both hold through every run |
| `GhApi.BeginInFlightBreaksTheCount` | dashboard/gh_api.py:96-108 | a run from the first state, one reserve and one begin, after which the count does not stay exact |
| `GhApi.ImportedAsJustRead` | dashboard/gh_api.py:114-127 | exactly the printable rows of what was exported come back, and are confirmed and evicted as if they had just been read |
| `GhApi.GitHubAPI.Begin` | dashboard/gh_api.py:96-108 | a refresh resets the count, moves the generation on, and evicts what the last two did not use, unless it is paused |
| `GhApi.GitHubAPI.Reserve` | dashboard/gh_api.py:212-218 | a unit is taken exactly when nothing is paused and the budget has one |
| `GhApi.GitHubAPI.Confirm` | dashboard/gh_api.py:142-175 | a 304 gives the unit back and the kept answer |
| `GhApi.GitHubAPI.Store` | dashboard/gh_api.py:142-175 | an answer with an ETag is kept under this generation |
| `GhApi.GitHubAPI.Pause` | dashboard/gh_api.py:254-264 | a spent hourly counter pauses only its family |
| `GhApi.GitHubAPI.ImportCache` | dashboard/gh_api.py:119-127 | rows with a printable endpoint and ETag join the cache under this generation, over what was there, and others do not |
| `GhApi.RefusalMeans` | dashboard/gh_api.py:212-218 | a request is let through exactly when neither its family nor all requests wait and the budget has a unit |
| `GhApi.PauseDelays` | dashboard/gh_api.py:254-264 | a pause shortens no wait: with a reset time the requests of its family alone wait for it, and without one all requests wait a minute |
| `GhApi.BeginKeepsWaits` | dashboard/gh_api.py:96-108 | a new refresh has its whole budget and ends no wait |
| `GhApi.RefusedAnswer` | dashboard/gh_api.py:142-175 | an answer that refuses leaves the cache and the count, and only one for the rate makes requests wait |
| `GhApi.RequestIsAsked` | dashboard/gh_api.py:142-175 | a request that is let through takes one unit and is asked with what is kept of its endpoint |
| `GhApi.AnswerIsGiven` | dashboard/gh_api.py:142-175 | a full answer is given as it came, and kept exactly when it has an ETag |
| `GhApi.ConfirmationIsGiven` | dashboard/gh_api.py:142-175 | a 304 gives what was kept, keeps it as just read, and gives the unit back |
| `GhApi.AnyTime` | dashboard/gh_api.py:96-127 | a refresh, an export, a clear or a restart may come at any time, whatever is in flight |
| `BotHistory.CompleteHistoryIsWhole` | dashboard/github_bots.py:44-61 | a role history stated complete shows the completion times a scan that never stops early would show, each side with the pull-request jobs it would still take, across all repositories and workflows, over seven days and over two hours, and the two-hour list is exactly the part of the seven-day one inside two hours |
| `BotHistory.TakenChangesNothing` | dashboard/github_bots.py:216-230 | pull-request jobs that a full scan would have shown, and so would not be taken, leave the five newest times as they are |
| `BotHistory.TakenLess` | dashboard/github_bots.py:216-230 | seeing more takes fewer pull-request jobs, each job at most once, and only those seen are dropped |
| `BotHistory.PermutedTimes` | dashboard/bot_runs.py:84-89 | the five newest times depend on the times alone, not on the order the scans add them in |
| `BotHistory.CompletedBotJobs` | dashboard/github_bots.py:89-110 | the scan reads a prefix of the listing, gives each role the rows of those runs, and ends only for one of its three reasons |
| `BotHistory.RunRowsCount` | dashboard/github_bots.py:64-86 | a row is there as often as a job that ended with a result, at a known time, and that the role names |
| `BotHistory.HistoryDoneMeans` | dashboard/github_bots.py:29-36 | the early stop is taken exactly at a run last updated over two hours ago when every role has five results of seven days, none older than it |
| `BotHistory.HistoryCompleteMeans` | dashboard/github_bots.py:44-61 | completeness is stated exactly when every scan ended well and, for each cut at the limit, there are five results none older than the first skipped run |
| `BotHistory.RecentIsRead` | dashboard/github_bots.py:89-110 | an early stop skips no run of the last two hours |
| `BotHistory.ReadingOnChangesNothing` | dashboard/github_bots.py:44-110 | reading every skipped run of the first i scans leaves the five newest times as they are |
| `BotHistory.SkippedIsNoNewer` | dashboard/github_bots.py:29-36 | a scan that stopped early belongs to a role with five results, none older than any run it skipped, whether it stopped by the early stop or the run limit |
| `BotHistory.SkippedRows` | dashboard/github_bots.py:89-110 | what a scan skipped completed no later than the first skipped run was updated |
| `BotHistory.AddNoNewerThanFifth` | dashboard/bot_runs.py:84-89 | a result no newer than the fifth leaves the five newest as they are |
| `BotHistory.FifthOfPart` | dashboard/bot_runs.py:84-89 | the five newest of a part are no newer than those of the whole |
| `BotHistory.TwoHoursOfSevenDays` | dashboard/bot_runs.py:84-89 | the five newest of two hours are exactly those of the five newest of seven days inside two hours |
| `BotHistory.RecentRunsTimes` | dashboard/bot_runs.py:84-89 | the rows chosen have the times that sorting and cutting the times alone gives |
| `UsageArtifacts.UnmarkedIsWhole` | dashboard/usage_artifacts.py:121-140 | a history not marked partial for a window holds a complete sample of every unexpired, dated usage artifact created after the window's start (or since the seven-day cutoff when there is no window) in every listed repository |
| `UsageArtifacts.UnmarkedIsHonest` | dashboard/usage_artifacts.py:121-140 | that holds for whatever window the result is judged by later |
| `UsageArtifacts.WholeScanIsUnmarked` | dashboard/usage_artifacts.py:121-140 | the other way: a scan that read every listing to its cutoff, and every artifact whole, is called partial for no window since then |
| `UsageArtifacts.LaterWindowAsksLess` | dashboard/usage_artifacts.py:112-140 | a result not partial for a window is not partial for a later one |
| `UsageArtifacts.UsageReader.Collect` | dashboard/usage_artifacts.py:310-347 | every result shown is honest for every window; it is the last scan's of the same repositories while that is under five minutes old, else a new scan's; lost access, which is a refused listing, leaves no cache and no samples; and when nothing failed, every listing reached its cutoff and every kept record is whole, the result is not called partial |
| `UsageArtifacts.UsageReader.Rescan` | dashboard/usage_artifacts.py:310-347 | a new scan's result replaces the old one, is honest for every window, and is not called partial when everything was read whole |
| `UsageArtifacts.UsageReader.Scan` | dashboard/usage_artifacts.py:310-347 | a scan without a hard failure has every repository's turn proved, and keeps nothing of a listed repository it did not see; a hard failure has a page that broke, or an artifact that is unusable or unreadable, behind it; a repository whose turn came keeps only what it still lists, any other exactly what it kept inside the window; access is lost exactly when the first listing that broke off was refused |
| `UsageArtifacts.UsageReader.ReadRepository` | dashboard/usage_artifacts.py:263-287 | every counting artifact that can be had is cached and tallied, what is new in the cache is what GitHub gave, nothing cached is changed, and it is hard partial exactly when a counting artifact is unusable, or not kept and unreadable |
| `UsageArtifacts.UsageReader.ReadArtifact` | dashboard/usage_artifacts.py:263-287 | the same of one artifact |
| `UsageArtifacts.UsageReader.Turn` | dashboard/usage_artifacts.py:310-335 | one repository's turn: it proves its coverage unless something of it failed, and its listing counts as complete whenever five pages reach the cutoff or the end |
| `UsageArtifacts.UsageReader.CarryOver` | dashboard/usage_artifacts.py:289-296 | what is kept is exactly what was seen or belongs to a repository not reached and is inside the window, and all of it is tallied |
| `UsageArtifacts.StillCachedMeans` | dashboard/usage_artifacts.py:143-148 | an unusable artifact is kept, and a dated one since the cutoff |
| `UsageArtifacts.Recent` | dashboard/usage_artifacts.py:223-241 | pages are read until one holds something older, ends the listing, is the fifth, or breaks, and for no other reason; a complete listing leaves no unread artifact at or after the cutoff, one cut at five pages read none before it, and the oldest date read is exact |
| `UsageArtifacts.TurnReadsBack` | dashboard/usage_artifacts.py:223-241 | newest first, everything newer than the turn's bound was read |
| `UsageArtifacts.OldestExtends` | dashboard/usage_artifacts.py:223-241 | the running oldest date over pages is the oldest of all of them |
| `UsageArtifacts.Tally` | dashboard/usage_artifacts.py:167-180 | every sample and gap of the records is in, nothing else is, and a missing or partial record is reported |
| `UsageArtifacts.CoveredUntil` | dashboard/usage_artifacts.py:183-186 | the latest of the bounds, and none when a listing proved nothing |
| `OwnerSet.OwnerSetCollector.DetailChangedFirst` | dashboard/owner_set.py:419-433 | however the budget runs out, every non-empty listed repository ends with each listed pull request exactly once, or with none and an error recorded for it; no pull request is left unread for the budget while one queued after it is read; and when nothing fails and the budget lasts, every one is read |
| `OwnerSet.OwnerSetCollector.PlaceQueued` | dashboard/owner_set.py:405-417 | exactly: skipped with a repository that could not be read; unread, asking nothing, once the budget is spent; else asked, and read, unread or skipped as its inventory and its detail answer, with the one failure recorded |
| `OwnerSet.OwnerSetCollector.PlaceAll` | dashboard/owner_set.py:419-433 | the whole queue, in order: each pull request is placed, a repository is left out only when its inventory failed and says so, once the budget is spent nothing is read, and when nothing fails all is |
| `OwnerSet.OwnerSetCollector.DetailQueued` | dashboard/owner_set.py:379-392 | the inventory is asked only when it is still to be read, then the pull request; the first that fails is recorded and ends it, and only one for the budget stops the pass |
| `OwnerSet.OwnerSetCollector.TakeInventory` | dashboard/owner_set.py:369-377 | an inventory is taken or its failure recorded, as GitHub answers |
| `OwnerSet.QueuePulls` | dashboard/head_state.py:249-259 | every listed row is queued once per listing: first those whose stored detail no longer matches its head or that something made urgent, then those without detail, last those whose detail still matches, each by the rank of its repository and its number |
| `OwnerSet.KindMeans` | dashboard/head_state.py:95-105 | a row is queued last, as kept, exactly when its stored detail's head has not moved and nothing made it urgent; one whose head moved is queued first |
| `OwnerSet.MarkUrgent` | dashboard/head_state.py:214-221 | exactly the stored pull requests whose head no longer matches become urgent, beside those that were |
| `OwnerSet.Queued` | dashboard/head_state.py:249-259 | the loops queue every listing's rows in turn |
| `OwnerSet.SortedIsOrdered` | dashboard/head_state.py:249-259 | the queue is in order |
| `OwnerSet.SortedKeepsRows` | dashboard/head_state.py:249-259 | sorting loses and doubles no repository's row |
| `OwnerSet.RowsQueued` | dashboard/head_state.py:249-259 | before sorting, a repository's queued rows are its listing |
| `OwnerSet.PlacedNext` | dashboard/owner_set.py:419-433 | placing one queued pull request keeps every repository all shown so far or left out |
| `OwnerSet.StopsInOrder` | dashboard/owner_set.py:405-433 | one sticky stop in an ordered queue means nothing later is read instead |
| `LaneHistory.Intervals` | dashboard/lane_history.py:293-316 | whatever the spans, the sweep gives each sample its interval evaluated against exactly the spans that start before it ends and ended at most a minute before it begins |
| `LaneHistory.SweptWholeExactly` | dashboard/lane_history.py:293-316 | for every list of samples, limit and time the sweep's rows are what all spans together give, exactly when no span ends more than a second before it starts |
| `LaneHistory.LateSpanIsMissed` | dashboard/lane_history.py:293-316 | for each span that does, among any others, a sample that the sweep and all spans read differently |
| `LaneHistory.SweptSamples` | dashboard/lane_history.py:273-316 | whatever the spans, each row has its sample's time and weight, and slot-seconds that fit its slots |
| `LaneHistory.SampleCounts` | dashboard/lane_history.py:269-316 | what a sample counts, second by second: running is the jobs of each second and the busy runners that no job or cleanup explains, up to the slots; warm and reserved are the runners up and not busy, less what starting jobs take and within what running leaves, the warm pool first |
| `LaneHistory.JobIsCounted` | dashboard/lane_history.py:269-316 | for one, a minute of a job on the one slot is a minute of running |
| `LaneHistory.TakeUp` | dashboard/lane_history.py:293-316 | the inner loop takes up exactly the spans that start before the interval ends |
| `LaneHistory.UnorderedSpanIsDropped` | dashboard/lane_history.py:293-316 | for one, a span that ended long before it starts is pruned from a sample that all spans count it in |
| `LaneHistory.SweepTotals` | dashboard/lane_history.py:293-316 | sorted, taken up and pruned, the spans left count for an interval what the spans near it count, in whatever order they came |
| `LaneHistory.UsageFitsTheSlots` | dashboard/lane_history.py:273-290 | running, warm and reserved slot-seconds are never negative and fit the limit for the interval's weight |
| `LaneHistory.SampledFits` | dashboard/lane_history.py:273-316 | so for every sample, the newest included |
| `LaneHistory.SpanCountsAtMostItsLength` | dashboard/lane_history.py:269-316 | what one span adds over all intervals is at most its own length, and nothing when it ends before it starts |
| `LaneHistory.JobSecondsWithinLengths` | dashboard/lane_history.py:269-316 | the job seconds of a range are at most the summed span lengths |
| `LaneHistory.RunningWithinSpans` | dashboard/lane_history.py:273-349 | the total running time the sweep gives, less what runners no span covers add, is at most the summed span lengths, whatever the spans |
| `LaneHistory.CoveredIsWeight` | dashboard/lane_history.py:337-355 | the covered time is the weight of the intervals that count, and at most the time since the first |
| `LaneHistory.Slots` | dashboard/lane_history.py:337-355 | the dictionary of bars holds each row in its own bar and nowhere else |
| `LaneHistory.FillBars` | dashboard/lane_history.py:319-355 | every bar of the range is the summary of its rows |
| `LaneHistory.BucketMeans` | dashboard/lane_history.py:319-330 | a bar gives the averages over the time of its samples that have begun, or of all when none has, to the nearest hundredth, and the largest waiting count |
| `LaneHistory.InBucketExactly` | dashboard/lane_history.py:337-355 | a bar holds exactly the samples of its time |
| `LaneHistory.RangeView` | dashboard/lane_history.py:337-355 | a range's bars and totals are those of its swept samples |
| `LaneHistory.RangeMeans` | dashboard/lane_history.py:337-355 | a range gives the covered hours, the share of the limit that ran and the warm and idle hours of the samples that have begun, to the nearest unit shown, and none of them without covered time |
| `LaneHistory.RangeEndsWithNow` | dashboard/lane_history.py:340-341 | the last bar is the one that the time is in, and bars are aligned to the clock |
| `LaneHistory.InsideCounts` | dashboard/lane_history.py:342-342 | a range's samples are exactly those since it began |
| `LaneHistory.RoundIsNearest` | dashboard/lane_history.py:319-330 | rounding gives the nearest whole number, and of two the even one |
| `LaneHistory.SamplesHaveBars` | dashboard/lane_history.py:337-355 | every sample of a range falls in one of its bars |
| `LaneHistory.SamplesCoverTheRange` | dashboard/lane_history.py:337-355 | the covered time is at most the range's length |
| `LaneHistory.TotalsAreRead` | dashboard/lane_history.py:337-355 | the busy share is at most 100 percent, and the warm and idle hours at most every slot for the range |
| `LaneHistory.PublishedRangeIsRead` | dashboard/history_read.py:34-46 | of no more than 64 slots, the reader accepts a published range exactly when every bar's waiting count is inside the cap, which it is when every sample's is |
| `LaneHistory.BucketIsRead` | dashboard/history_read.py:14-22 | of no more than 64 slots, the reader accepts a bar exactly when its waiting count is inside the cap |
| `LaneHistory.WaitSummaryIsRead` | dashboard/history_read.py:25-31 | the reader accepts every wait summary |
| `LaneHistory.WaitSummaryMeans` | dashboard/lane_history.py:242-249 | a summary counts its rows, and gives the mean of the routing times that are known, if any is |
| `LaneHistory.SortedWaitsAre` | dashboard/lane_history.py:242-249 | the waits are ranked from the shortest, each as often as a row has it |
| `LaneHistory.PercentileMeans` | dashboard/lane_history.py:238-239 | a percentile is the value of the nearest rank |
| `LaneHistory.ReadHistoryMeans` | dashboard/history_read.py:14-68 | the reader accepts exactly what is within bounds everywhere: three ranges of 30, 48 and 56 bars, none over ten thousand slots or waiting jobs, covered hours up to one more than the range, up to 100 percent busy, warm and idle hours up to 64 slots for the range, waits up to a week, and the lane's own counts inside their caps |
| `LaneHistory.HistoryIsReadExactly` | dashboard/history_read.py:49-68 | of no more than 64 slots, the reader accepts what the writer publishes exactly when the limit, queue numbers and job starts are inside its caps and so is every bar's waiting count |
| `LaneHistory.PublishSection` | dashboard/lane_history.py:337-355 | a section holds its range, drawn with the job spans of the shared kinds, and the waits of the same rows in that range |
| `LaneHistory.PublishHistory` | dashboard/lane_history.py:358-372 | the history holds the three ranges of one set of rows, and of the limit, the queue and the QAE pool what the refresh knows, or nothing where it knows none |
| `LaneHistory.ThreeRanges` | dashboard/lane_history.py:44-45 | the ranges are the last hour, day and week in 30, 48 and 56 bars |
| `LaneHistory.JobSpans` | dashboard/lane_history.py:256-266 | the spans of jobs that started no later than their end are in order |
| `LaneHistory.JobSpansCount` | dashboard/lane_history.py:256-266 | a span is there as often as a row of the counted kinds starts and ends so, an unfinished one ending now while its runner holds a slot |
| `LaneRecords.Capture` | dashboard/lane_history.py:375-383 | whatever the listener sent and earlier refreshes kept, and whether the host answered or not, what one refresh publishes is accepted by its reader exactly when what it says of the lane is inside the caps, for any limit, or without one for samples of no more than 64 slots |
| `LaneRecords.CapturedIsReadExactly` | dashboard/history_read.py:49-68 | for the samples and waits a refresh keeps: what earlier refreshes left never breaks a cap, so acceptance turns only on what this one says of the lane |
| `LaneRecords.ProjectQueue` | dashboard/lane_history.py:94-112 | the sums and slots of the first 64 sets, or nothing when one of them or the QAE pool cannot be read |
| `LaneRecords.AddUp` | dashboard/lane_history.py:98-106 | the running sums and the growing set are those of the sets, read exactly when all of them are |
| `LaneRecords.SetReadMeans` | dashboard/lane_history.py:94-112 | a set is read when it is of a known kind, its three counts are up to 10000 and it names up to 64 instances from 1 to 64 |
| `LaneRecords.SumsAreRefused` | dashboard/lane_history.py:94-112 | two sets of 33 runners are read, and no history with their sum is |
| `LaneRecords.JobsAreSweptWholeExactly` | dashboard/lane_history.py:256-316 | the sweep over the kept jobs agrees with all of them, whatever the samples, exactly when no row that counts ends more than a second before it starts, or holds a slot and starts more than a second after now |
| `LaneRecords.CleanSamples` | dashboard/lane_history.py:200-222 | the samples read back are exactly the sound ones of seven days with no count over 10000, in order |
| `LaneRecords.SampleReadMeans` | dashboard/lane_history.py:200-209 | a sample reads back when it is sound, no older than seven days, and counts up to 10000 where it counts |
| `LaneRecords.Waits` | dashboard/lane_history.py:163-175 | one record a runner, the last sound one of seven days with any finish it took, by start and then by runner, and of more than the cap the newest |
| `LaneRecords.Unique` | dashboard/lane_history.py:163-175 | the dictionary holds for each runner what folding its records leaves |
| `LaneRecords.Keep` | dashboard/lane_history.py:154-160 | the newer record replaces the earlier, whose finish it takes only when it has none |
| `LaneRecords.NewestIsInOrder` | dashboard/lane_history.py:154-160 | a kept record ends before it starts exactly when it took a finish from before its start |
| `LaneRecords.FinishMisplaced` | dashboard/lane_history.py:154-160 | two sound records of one runner that give such a record |
| `LaneRecords.CleanIsSound` | dashboard/lane_history.py:119-151 | a record taken from either source ends no earlier than it starts and its waits are inside the caps |
| `LaneRecords.CleanMeans` | dashboard/lane_history.py:116-151 | exactly what is taken from either source, and what is dropped |
| `LaneRecords.TakenMeans` | dashboard/lane_history.py:182-233 | a refresh's sample counts the taken slots of the runner pool and those with a job, the pool being CI's alone while QAE has its own, and repeats the queue's counts |
| `LaneRecords.SharedRowsCount` | dashboard/lane_history.py:189-197 | those slots are the records of the pool's kinds, and the busy ones those with a job |
| `LaneRecords.SpansAreOrderedExactly` | dashboard/lane_history.py:256-266 | the job spans are in order exactly when no row that counts ends before it starts or, holding a slot, starts after now |
| `LaneRecords.WaitsGiveOrderedSpans` | dashboard/lane_history.py:154-175 | they are when no refresh misplaced a finish and no unfinished job started after now, and the sweep then agrees with all spans |
| `LaneRecords.Samples` | dashboard/lane_history.py:212-235 | of the samples that read back and this refresh's, the last of each time, strictly by time, and of more than the cap the newest |
| `LaneRecords.UsableAscends` | dashboard/lane_history.py:252-253 | those that say what the slots did are what the sweep needs: oldest first |
| `MergeGrant.ChainIsWhatEncloses` | gates/_merge_grant.py:268-280 | a line is in another's chain exactly when every significant line from it down to that line is deeper than it |
| `MergeGrant.PoppedIsChain` | gates/_merge_grant.py:268-280 | popping what is not shallower leaves exactly the new line's chain |
| `MergeGrant.PushKeepsStack` | gates/_merge_grant.py:268-280 | at every line the stack is the last significant line and its chain of nearest shallower lines |
| `MergeGrant.InContext` | gates/_merge_grant.py:268-280 | the stack loop gives every line the key its true enclosing lines spell |
| `MergeGrant.KeyedIsInjective` | gates/_merge_grant.py:268-280 | without the two separators in any text, equal keys mean the same line under the same enclosing keys |
| `MergeGrant.ChangedLines` | gates/_merge_grant.py:283-297 | the growing lists hold both sides of every unequal block |
| `MergeGrant.FindLineHit` | gates/_merge_grant.py:300-304 | a hit is found exactly when a line of an unequal block is named by `changed` on either side or by `removed` at the base |
| `MergeGrant.ChangedHitsAgree` | gates/_merge_grant.py:283-304 | without a hit, the lines `changed` names are the same at base and head, in order and under the same keys, for any valid alignment |
| `MergeGrant.RemovedHitsSurvive` | gates/_merge_grant.py:283-304 | without a hit, every base line `removed` names survives at head in its context and order |
| `MergeGrant.NoHitKeepsLines` | gates/_merge_grant.py:300-317 | both together |
| `MergeGrant.KeptExactlyWithoutSeparators` | gates/_merge_grant.py:268-304 | over an alphabet with a space and `a`, no hit implies every named line is kept for all files, rules and alignments, if and only if the alphabet holds neither separator |
| `MergeGrant.UnitLosesALine` | gates/_merge_grant.py:268-304 | two files with U+001F in their text lose a named line without a hit |
| `MergeGrant.NulLosesALine` | gates/_merge_grant.py:268-304 | two files with U+0000 in their text do too |
| `MergeGrant.Decide` | gates/_merge_grant.py:341-363 | the grant decided is the first that allows the pull request: in scope and, when it asks for anything, no path with a control character, every path of every file in one of its categories, every condition of an entry that takes either path judged on readable texts and met, and no selected file hit by an exclusion; one that meets all this is refused only for an earlier one |
| `MergeGrant.Judge` | gates/_merge_grant.py:328-338 | the checks in their order, the path check first, hold exactly when the grant allows the files |
| `MergeGrant.Categorize` | gates/_merge_grant.py:251-262 | the loops over files and entries find exactly: every path taken, every condition that is judged met |
| `MergeGrant.ClearMeans` | gates/_merge_grant.py:264-317 | an exclusion is judged on each file with a path it selects and does not except, on both sides' texts |
| `MergeGrant.SplitAtNewlines` | gates/_merge_grant.py:286-286 | a text is cut at its newlines and nowhere else |
| `MergeGrant.SpacesAre` | gates/_merge_grant.py:273-275 | what stripping a line takes off is exactly Unicode white space and the four separators from U+001C |
| `MergeGrant.GrantKeepsNamedLines` | gates/_merge_grant.py:313-363 | whatever the diff, a grant that holds keeps every line its exclusions name in each file they select |
| `Glob.CompiledMeansSegments` | gates/_contract.py:154-168 | when every `**` is a whole segment, the compiled pattern accepts a newline-free path exactly when its segments fit: `**` before others skips zero or more whole segments, and a star or a question mark never crosses a slash |
| `Glob.FittingIsAccepted` | gates/_contract.py:154-168 | whatever its stars, a glob's pattern accepts every newline-free path its segments fit |
| `Glob.PathsReadAlike` | gates/_contract.py:154-168 | a path is read alike by pattern and segments for every glob of whole-segment stars exactly when it has no newline |
| `Glob.GlobsReadAlike` | gates/_contract.py:154-168 | a glob of any number of segments, none of them `**`, is read alike on every newline-free path exactly when it has no two stars together or names a newline |
| `Glob.SegmentsReadAlike` | gates/_contract.py:154-168 | a one-segment glob is read alike on every newline-free path exactly when it is `**`, has no two stars together, or names a newline |
| `Glob.CrossingAddsSlashes` | gates/_contract.py:154-168 | the path that crosses at each pair of stars has more segments than a glob with such a pair |
| `Glob.NewlineAcceptsNone` | gates/_contract.py:154-168 | a pattern that names a newline accepts no path without one |
| `Glob.GlobToRegex` | gates/_contract.py:154-168 | the index loop builds the pattern of the whole glob |
| `Glob.Matches` | gates/_contract.py:178-179 | a path is matched exactly when one of the globs' patterns accepts it; a newline-free path is matched whenever its segments fit one, and only then when the stars are whole segments |
| `Glob.AnywhereMeansLast` | gates/_contract.py:171-175 | for `**/` and a name, as the Python test globs are written, the last segment alone decides |
| `Glob.DirsMean` | gates/_contract.py:154-168 | `**/` accepts exactly a skip of whole leading segments |
| `Glob.StarMeans` | gates/_contract.py:154-168 | a star accepts exactly a run inside its segment |
| `Glob.StarsInsideCross` | gates/_contract.py:154-168 | for one, `a**` accepts `ab/c` |
| `Glob.LastNewlineSlips` | gates/_contract.py:168-168 | for one, `a` accepts `a` and a newline |
| `AffectedTests.Reach` | gates/_affected_graph.py:299-307 | the loop ends, cycles or not, with exactly the files that have a chain of imports to one of the starts |
| `AffectedTests.Visit` | gates/_affected_graph.py:299-307 | an importer is marked and stacked once, and costs more of what is unseen than it adds to the stack |
| `AffectedTests.ImportersOf` | gates/_affected_graph.py:95-101 | the map is exactly the imports reversed |
| `AffectedTests.AddImporter` | gates/_affected_graph.py:95-101 | one file becomes an importer of exactly its targets, and no other entry changes |
| `AffectedTests.Reached` | gates/_affected_tests.py:190-201 | what a change reaches uses the config edges, and what reaches a reading file does not |
| `AffectedTests.AddConfigs` | gates/_affected_tests.py:190-201 | each config gains exactly the tests under its directory |
| `AffectedTests.Select` | gates/_affected_tests.py:175-187 | a test is listed exactly when every test runs, or it is always kept, or it reaches a reading file by imports, or it reaches a changed file by imports and config edges |
| `AffectedTests.MoreChangesListMore` | gates/_affected_tests.py:175-201 | for a fixed checkout a larger change lists no fewer tests |
| `AffectedTests.ChangedTestsAreListed` | gates/_affected_tests.py:190-201 | a changed test is listed, and so is every test whose leading segments are the directories of a changed runner config, or every test when the config stands at the top |
| `AffectedTests.UnderMeansSegments` | gates/_affected_tests.py:190-201 | "under its directory" is containment by whole path segments |
| `AffectedTests.RunsBeforeMeansSegments` | gates/_affected_tests.py:198-201 | a config runs before exactly the tests whose leading segments are all of its own but the last, with at least one more after them, and from the top before every test |
| `AffectedTests.Directory` | gates/_affected_tests.py:198-201 | the directory is what stands before the last slash, and there is none exactly when there is no slash |
| `AffectedTests.CompilerPaths` | gates/_affected_graph.py:145-159 | the recursion ends on cyclic `extends`, and though one seen set is shared by all branches it finds what a search of each branch on its own finds: the first config depth first that gives anything, under the nearest baseUrl |
| `AffectedTests.SearchFrom` | gates/_affected_graph.py:135-159 | a tsconfig finds an alias or a baseUrl exactly when something it inherits from gives one, and each comes from a config on a chain of inheritance |
| `AffectedTests.SpentGivesNothing` | gates/_affected_graph.py:145-159 | a config already searched in vain would give nothing to any other branch either |
| `AffectedTests.AloneIsInherited` | gates/_affected_graph.py:145-159 | what a branch finds on its own is given by a config it inherits from |
| `AffectedTests.TsconfigScopes` | gates/_affected_graph.py:135-143 | each directory's scope joins what its tsconfigs find, in file order, with the first baseUrl, and no scope is empty |
| `AffectedTests.ScopeMeansGiving` | gates/_affected_graph.py:135-143 | a directory has a scope exactly when one of its tsconfigs finds something |
| `AffectedTests.ScopeHoldsEveryAlias` | gates/_affected_graph.py:135-143 | an alias is in a directory's scope exactly when one of its tsconfigs finds it |
| `Shards.ShardsOf` | gates/_proof_audit.py:55-67 | the shards concatenate to the input, none is empty or over the limit, sizes differ by at most one with the larger first, and no such cut has fewer |
| `Shards.CutAt` | gates/_proof_audit.py:55-67 | the loop takes consecutive runs of the given widths and uses every item |
| `Shards.WidthsFit` | gates/_proof_audit.py:55-67 | the even widths hold at least one item and at most the limit |
| `Shards.Fewest` | gates/_proof_audit.py:55-67 | one piece fewer cannot hold the items |

## Left out

- Subprocesses, `gh`, git, HTTP, SSH, JSON text, compression and date parsing: answers are arbitrary values of the model's types.
- Regular-expression engines: line, path and job-name patterns are predicates, except the pieces a glob compiles to, whose meaning is written out.
- The bots, subscription, inventory and coverage fields of a reading, and the labels on a pull request's face: no property here depends on them.
- When a pass or a beat is due: the protocol allows one at any time, which covers every schedule.
- A store write that fails is a write that changes nothing, and a clear always succeeds; file permissions and locks between processes are not modelled.
- An exception outside the part of a pass that catches it: in the store's clear, the caches' clear or the publishing.
- Deep copies: readings are values, so a page can never alias the shared reading, which the source ensures by copying.
- Rounding in binary floating point: shares and hours are exact fractions rounded half to even.
- `BotHistory.CompleteHistoryIsWhole`: claims completion times, not rows, because rows that tie on time may be chosen either way.
- `UsageArtifacts.UnmarkedIsWhole`: artifact dates are whole seconds and a listing does not change between its pages; the explorer's lane instance and the account labels are not modelled.
- `OwnerSet.OwnerSetCollector.DetailChangedFirst`: the pull requests shown are identified by their listed rows; signals, rules and detail times are not modelled, and the order used when no head list could be read (`_detail_in_order`) is not.
- `AffectedTests.Select`: the list is a set, printed sorted by the source; what a file imports, names or reads is given, because it rests on text patterns.
- `AffectedTests.CompilerPaths`: an alias is a value already resolved against its own config, and choosing the nearest directory's scope for a file is not modelled.
- `Shards.ShardsOf`: the count of shards is an exact quotient rounded up, where the source divides in floating point.
- `MergeGrant.Decide`: scopes, the JSON condition on two texts and the path categories are predicates; loading and checking the policy file is not modelled.
- Freedom from starvation of repositories: the order by need does not promise it.
- The disk after `LiveService._forget_kept` and after the reset in `LiveService.snapshot`: the clear is not ordered after the generation is raised.
- `LaneRecords.Capture`: which text and number fields of a record, a sample or a set are well formed is given with it; the times and runner names the history repeats are well formed because their records are; whether a history without a limit is accepted when a sample saw more than 64 slots is not said.
- `LaneRecords.WaitsGiveOrderedSpans`: one direction over a whole refresh, since a later record can replace a misplaced one; each step is exact.
- `Glob.GlobsReadAlike`: no `**` segment; of the globs that have one beside stars inside another segment, which are read alike is not given.
- Paths with doubled or trailing slashes: a directory is what stands before the last slash, as in every path git lists.
- Alias substitution, package exports and Python module names in the import graph: they only say which files an import names.
- GraphQL points, rate-limit headers and the reserve kept for them.
