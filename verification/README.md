# DominatorV3 core in Dafny

A model of the back end of DominatorV3, a content-pack generator. Clients submit a niche and the
server queues a *job*. A scheduler tick reclaims stale jobs and admits queued jobs up to a
concurrency cap. A worker turns each admitted job into a *pack* and writes the job back as done or
failed. Around that state machine sit the pure helpers the generator and the experiments feature
use:

- text cleaning, keyword extraction and the niche lock;
- the dominance scores;
- hashtag normalisation and the trend providers;
- A/B/C experiment winners and the creator genome;
- the policy gate and the hook score;
- the per-platform success counters;
- the abstract winning-pattern layer (WPIL: ingestion, memory, selection and runtime
  constraints).

The model is functional. The job table is a `map<string, Job>` inside a `Db` value, and time is
integer seconds passed in as `now`. Every route or tick is a function or method from the state
before to the state after. The request log of the rate limiter is part of that state, and so is
the in-process platform-counter dictionary. Files (the pattern memory, the secret files) become
optional values. What the code gets from the outside is passed in as a parameter:

- the language model's generated text;
- the fresh uuids;
- the HTTP answer of the trends service;
- the environment.

| file | module | models |
|---|---|---|
| wrappers.dfy | Wrappers | `Option` and `Result` |
| text.dfy | Text | `strip`, `lower`, `split`, `join`, `replace`, `re.sub(r"\s+", …)` over `seq<char>` |
| seqs.dfy | Seqs | order-keeping dedupe, Python slicing `xs[:n]` |
| config.dfy | Config | settings defaults, `or` fallbacks, secret precedence, database-URL normalisation, boot adjustments |
| models.dfy | Models | the `Job` and `Pack` rows and their column defaults, platform-list parsing, the names the module defines |
| job_store.dfy | JobStore | status counts, the status-guarded claim, oldest-first listing |
| scheduler.dfy | Scheduler | `_cleanup_stale_running` and `_kick_scheduler` |
| rate_limit.dfy | RateLimit | `_rate_limit_ok` |
| niche_lock.dfy | NicheLock | `_clean_text`, `_keywords`, `_ensure_niche_lock`, `_dominance_score`, `_col` |
| processing.dfy | Processing | `process_build_pack`'s request reading and writebacks, `_mark_job_failed`, `worker_tick` |
| routes.dfy | Routes | `build_pack`, `job_status`, the internal worker-tick and cleanup routes, dispatched runners |
| scoring.dfy | Scoring | `clamp`, `score_hook` |
| platform_memory.dfy | PlatformMemory | sic_memory.py |
| genome.dfy | Genome | `seed_creator_dna`, `update_genome_after_experiment`, and the failing import of its records |
| policy.dfy | Policy | `evaluate_policy` |
| experiments.dfy | Experiments | `_rates`, `_choose_winner`, `add_metrics_point`, and the failing import of its records |
| trends_provider.dfy | TrendsProvider | hashtag normalisation and the three providers |
| trends.dfy | Trends | the `services/trends.py` shim |
| pipeline.dfy | Pipeline | `nebula_models`, `_extract_text_from_gemini`, fallback blocks, `dominance_score` |
| wpil_memory.dfy, wpil_ingest.dfy, wpil_selector.dfy, wpil_runtime.dfy | Wpil… | the pattern layer |

Some behaviours are modelled as written because they are easy to "fix" by accident:

- status `processing` counts as running;
- the tick refuses admission when `queued > cap`, but submission refuses when `queued >= cap`;
- `worker_tick` ignores the concurrency cap;
- the done and failed writebacks are unconditional updates, so a finished job can be written
  again;
- in the pattern selector, a platform match alone (3) ties with a niche plus intent match (2 + 1).

## Model

| member | source | states |
|---|---|---|
| Config.OrInt | config.py:56-59 | `int(x or d)`: a non-zero setting is kept, zero falls back to the default |
| Config.StaleSeconds | app.py:75 | the stale threshold is the larger of 180 s and three model timeouts, and is one of the two |
| Config.DefaultLimits | config.py:56-59 | the defaults give backlog 60, concurrency 2, timeout 45, 60 requests a minute and a 180 s stale threshold; a zero setting behaves as its default |
| Config.RewriteScheme | tasks.py:32-36 | the result never starts with `postgres://`; other URLs are unchanged; a `postgres://` URL keeps its remainder after `postgresql://` |
| Config.RewriteSchemeIdempotent | tasks.py:32-36 | rewriting twice is rewriting once |
| Config.NormalizeDbUrl | config.py:10-14 | `None` reads as empty; the result is stripped and never starts with `postgres://` |
| Config.NormalizeDbUrlIdempotent | config.py:10-14 | normalising a normalised URL changes nothing |
| Config.FileSecret | config.py:28-31 | a secret file counts exactly when its stripped content is non-empty, and then gives that content |
| Config.ReadSecretFile | config.py:17-34 | `/etc/secrets` wins over the working directory; a missing or blank file falls through |
| Config.GetSecret | config.py:37-49 | a non-blank environment value wins (stripped), then the first usable secret file, then the default |
| Config.GeminiModel | config.py:90 | the environment value if non-empty, else the configured one, else `gemini-flash-latest` |
| Config.Boot | config.py:79-90 | the database URL is normalised, configured keys are kept, an unset token is read through `get_secret`, and the limits are untouched |
| Models.NewJob | models.py:25-43 | a new job is queued with progress 0, no pack, no errors, no start or finish time, both stamps `now` |
| Models.NewPack | models.py:46-68 | a new pack has mode `niche`, language `ar`, tone `Authority`, no job, empty input and platforms |
| Text.StripAll | tasks.py:466 | the pieces kept are non-empty and stripped, each the strip of a piece given, and every non-blank piece is kept |
| Text.StripAllWithout | tasks.py:466 | splitting on commas leaves no comma in a kept piece |
| Models.ParsePlatforms | tasks.py:464-470 | a missing or empty value gives `TikTok, X, LinkedIn`; a list is kept; a string is split on commas with empty pieces dropped |
| JobStore.IdsWith | app.py:67-70 | the ids counted are exactly the jobs whose status is in the set |
| JobStore.CountAfterUpdate | app.py:67-70 | changing one job moves the count by one exactly when its status crosses the set |
| JobStore.FinishCounts | tasks.py:519-538 | a queued job that finishes leaves the queued count and does not change the running count |
| JobStore.ClaimIfQueued | app.py:156-167 | the `queued -> running` update applies exactly when the job is queued; it sets running, `started_at`, progress 0.05 and touches nothing else |
| JobStore.ClaimAtMostOnce | app.py:156-167 | two claims of one job never both succeed |
| JobStore.ClaimAll | app.py:154-171 | the claimed ids are candidates that were queued, no more of them than candidates |
| JobStore.ClaimAllEffect | app.py:154-171 | the claimed jobs become running with the start time and progress 0.05; every other job is unchanged |
| JobStore.ClaimAllDistinct | app.py:154-171 | no job is claimed twice |
| JobStore.ClaimAllCounts | app.py:154-171 | the running count grows, and the queued count shrinks, by exactly the number claimed |
| JobStore.ClaimAllQueued | app.py:154-171 | distinct queued candidates are all claimed |
| JobStore.OldestQueued | app.py:146-153 | the listing holds queued jobs in ascending creation time, as many as the limit allows |
| Scheduler.StaleMessage | app.py:86-96 | the message is `stale_timeout>` followed by the decimal digits of the threshold and `s`, and the digits read back as the threshold |
| Scheduler.ReclaimStatuses | app.py:73-96 | reclamation moves exactly the stale jobs out of the running statuses and keeps the queued set |
| Scheduler.ReclaimCounts | app.py:73-96 | the running count drops by the number reclaimed; the queued count is unchanged |
| Scheduler.Reclaim | app.py:73-96 | stale jobs become failed with the stale message and `finished_at = now`; every other job is unchanged; the count returned is the number of stale jobs |
| Scheduler.StaleBoundary | app.py:75-85 | a started job is reclaimed exactly when strictly more than the threshold has passed |
| Scheduler.DefaultStaleScenario | app.py:75-96 | with the defaults a job survives 180 s and is failed with `stale_timeout>180s` at 181 s |
| Scheduler.Slots | app.py:133-136 | no slot exactly when running reaches the cap; slots never push running past the cap and never exceed `max(1, max_to_start)`, and they stop short only at one of those two limits |
| Scheduler.SlotsIsMin | app.py:133-136 | the slots are `min(max(0, cap - running), max(1, max_to_start))`; a cap of 10 with nothing running and `max_to_start` 5 gives 5 |
| Scheduler.KickScheduler | app.py:127-176 | reclaim, then start nothing with no free slot or a queue over the backlog, else claim oldest-first; started ≤ slots; running stays within the cap when it was |
| RateLimit.Dropped | app.py:57-58 | the pruning loop drops exactly the leading entries older than 60 s |
| RateLimit.Check | app.py:53-64 | accepted exactly when the pruned log is below the limit, and then `now` is recorded; otherwise nothing is recorded and the retry is `max(1, 60 - age of the oldest entry)`; an empty log with a non-positive limit raises `IndexError` |
| RateLimit.Max1 | app.py:61 | `max(1, x)` is at least 1 and at least `x` |
| RateLimit.PruneWindow | app.py:57-58 | on an ordered log the entries left are all inside the window |
| RateLimit.CheckKeepsWindow | app.py:53-64 | with a positive limit the log stays ordered, within `limit` entries and within the last 60 s; it never raises and a retry lies in 1..60 |
| NicheLock.CleanText | tasks.py:152-155 | the result is trimmed and single-spaced, and empty exactly when the input is all whitespace |
| NicheLock.CleanTextIdempotent | tasks.py:152-155 | cleaning a cleaned text changes nothing |
| NicheLock.RunLength | tasks.py:160 | a token run is the longest prefix in one character class |
| NicheLock.Tokens | tasks.py:160 | every token is non-empty and from one class |
| NicheLock.TokenChars | tasks.py:163-164 | tokens hold no `#` and no whitespace, so `strip("#")` leaves them alone |
| NicheLock.Candidates | tasks.py:163-168 | the tokens kept are neither stop words nor all digits |
| NicheLock.KeywordLoopDedupe | tasks.py:161-171 | the loop collects the first `max(1, limit)` distinct candidates in first-occurrence order |
| NicheLock.Keywords | tasks.py:158-172 | the keywords are distinct, lower-case, no stop word or number, at most `max(1, limit)`, and the first distinct candidates |
| NicheLock.LowerCandidates | tasks.py:163 | every candidate is already lower-case |
| NicheLock.EnsureNicheLock | tasks.py:180-188 | fails exactly on an empty cleaned niche; passes when the niche occurs in the payload; otherwise passes exactly when the first three keywords all occur |
| NicheLock.DominanceHeuristic | tasks.py:281-299 | the score is 60 plus the keyword, TikTok and authority bonuses; the risk is low exactly when the score reaches 75 |
| NicheLock.DominanceHeuristicRisk | tasks.py:281-299 | the score lies in 60..80, so the cap of 95 never binds |
| NicheLock.ColumnIndexKeys | tasks.py:101-106 | the index has a key exactly for each lowered column name |
| NicheLock.ColumnIndexLast | tasks.py:101-106 | each key maps to the last column whose lowered name it is |
| NicheLock.Col | tasks.py:101-106 | none exactly when no candidate matches a column case-insensitively; otherwise the actual name of a column matching the first candidate that matches |
| Processing.ParseRequestSpec | tasks.py:451-470 | each value comes from the first non-empty key of its chain, stripped, with defaults `niche`, `ar`, `Authority`; the niche is cleaned |
| Processing.FailedRow | tasks.py:542-567 | the failed row has status failed, progress 0, the message and trace, `finished_at = now`; its start, pack and identity are kept |
| Processing.DoneRow | tasks.py:424-437 | running then done: progress 1, the pack id, cleared errors, `started_at` set only when it was unset |
| Processing.BuildOutcome | tasks.py:379-567 | a missing row, then a refused niche lock, then a taken pack id raise; otherwise the pack id is returned |
| Processing.PackFor | tasks.py:474-517 | the pack row carries the job id, the values read from the request and `now` |
| Processing.Writeback | tasks.py:424-567 | only the processed row changes; a failure rolls back and writes the failed row, and adds no pack |
| Processing.ProcessBuildPack | tasks.py:379-567 | a missing job raises and changes nothing; the pack id is returned exactly when the niche lock passes and the id is free, and then the row is done and `packs` gains exactly that pack; otherwise the row is failed with the error text and `packs` is unchanged; no other job row changes |
| Processing.BlankNicheRefused | tasks.py:452-459 | a request with blank input, niche and topic reads as an empty niche, which the lock refuses |
| Processing.RefusedLockFails | tasks.py:542-567 | a refused lock fails the job with the lock's message and creates no pack |
| Processing.MarkJobFailed | app.py:99-111 | an existing job becomes failed with the message and trace whatever its status; no other job changes |
| Processing.RunDispatched | app.py:114-124 | a dispatched run leaves its job done or failed and no other job changed |
| Processing.RunDispatchedCounts | app.py:114-124 | a dispatched run never adds to the running count |
| Processing.DoneOverwritesAnyStatus | tasks.py:538 | the done writeback is unguarded: it overwrites the row whatever its status |
| Processing.EntryOf | tasks.py:583-596 | a processed entry carries the pack id and an errored entry the exception text |
| Processing.TickRun | tasks.py:583-596 | one loop step processes the job and records its entry; a missing job changes nothing |
| Processing.ProcessAll | tasks.py:583-596 | one entry per selected id |
| Processing.ProcessAllEffect | tasks.py:583-596 | each selected job ends done or failed; other jobs are unchanged |
| Processing.ProcessAllEntries | tasks.py:583-596 | each selected job gets its entry in order, never a not-found error |
| Processing.ProcessAllCounts | tasks.py:583-596 | processing distinct queued jobs lowers the queued count by their number and keeps the running count |
| Processing.WorkerTick | tasks.py:570-604 | the limit becomes at least 1; the oldest queued jobs up to it are processed in order and finished; the running count is untouched |
| Routes.StoredReadBack | app.py:261-291 | what processing reads back from a stored request is what `build_pack` stored |
| Routes.StoredFields | app.py:280-288 | each key of a stored request reads back its value |
| Routes.Read | app.py:247-264 | the input is the first non-empty of input, niche, topic and value, stripped; processing reads it back as the cleaned niche |
| Routes.Admit | app.py:258-291 | empty input is a bad request and a queue at the backlog is busy, both creating nothing; otherwise exactly one queued job is added |
| Routes.CountAdded | app.py:67-70 | adding a job counts it exactly when its status is counted |
| Routes.Kick | app.py:127-176 | the kick dispatches only jobs it made running, at most `max_to_start`, and keeps the cap |
| Routes.RunInline | app.py:293-316 | a sync job is processed in the request and answered as done with its pack or as failed with its error |
| Routes.Enqueue | app.py:258-318 | after rate limiting: admission, then inline processing or a kick |
| Routes.BuildPack | app.py:240-319 | rate limiting first, then admission; the cap is kept |
| Routes.JobStatus | app.py:322-345 | a missing job is not found; otherwise the job is returned after a one-slot kick |
| Routes.NoTokenLocksOut | app.py:363 | with no token configured no header is accepted |
| Routes.WorkerTickRoute | app.py:360-368 | unauthorised calls change nothing; otherwise `worker_tick` with limit at least 1 runs and the running count is kept |
| Routes.AdminCleanup | app.py:371-385 | unauthorised calls change nothing; otherwise reclamation runs and the counts after it are reported |
| Routes.RunPending | app.py:114-124 | a pending runner leaves the pending list and never raises the running count |
| Scoring.Clamp | services/scoring.py:3-4 | the result lies in `[lo, hi]` and equals `x` when `x` is inside |
| Scoring.ClampMonotone | services/scoring.py:3-4 | clamping keeps order and is idempotent |
| Scoring.HitsSpec | services/scoring.py:29-40 | no hit exactly when no word occurs; hit counts add over concatenated lists |
| Scoring.LengthBonusShape | services/scoring.py:21-26 | the length bonus is cumulative: 0, 6, 10 or 12, never smaller for a shorter hook |
| Scoring.RawHookScoreBounds | services/scoring.py:13-47 | the unclamped score lies between 64 and 100.8 |
| Scoring.ScoreHook | services/scoring.py:7-49 | the score lies in `[50, 95]` (indeed at least 64) and equals the raw score when that is at most 95 |
| PlatformMemory.NormalizePlatform | sic_memory.py:7-13 | empty stays empty; otherwise stripped and lowercased, `twitter` exactly for `x` and `twitter`; never `x` |
| PlatformMemory.NormalizePlatformIdempotent | sic_memory.py:7-13 | normalising twice is normalising once |
| PlatformMemory.RecordSuccess | sic_memory.py:15-18 | exactly the success counter of a known platform goes up by one; an unknown platform changes nothing |
| PlatformMemory.RecordFailure | sic_memory.py:20-23 | exactly the failure counter of a known platform goes up by one; an unknown platform changes nothing |
| PlatformMemory.PlatformScore | sic_memory.py:25-37 | 0.5 for an unknown platform or no history, else successes over total, within `[0, 1]` |
| PlatformMemory.SharedTwitterCounters | sic_memory.py:11-12 | `x` and `twitter` read and write the same counters |
| PlatformMemory.RecordMovesScore | sic_memory.py:15-37 | a success never lowers the score and a failure never raises it |
| PlatformMemory.RecordKeepsPlatforms | sic_memory.py:1-5 | the memory always holds exactly the three platforms |
| Genome.SeedCreatorDna | services/genome.py:22-46 | the profile records the inputs, the ISO seeding time, the number of past scripts and the fixed learned defaults |
| Genome.Last | services/genome.py:57 | `xs[-n:]`: the last `n` elements, or all of them |
| Genome.UpdateAfterExperiment | services/genome.py:49-60 | `learned` is created when absent; a blank hook leaves the history as it was; a hook is appended, cut to 120 characters |
| Genome.UpdateAppendsCapped | services/genome.py:53-57 | after a non-blank hook the newest entry is that hook, and at most 50 entries remain |
| Genome.UpdatesKeepCap | services/genome.py:57 | a history within the cap stays within it through any number of updates |
| Genome.UpdateAfterExperimentAsWritten | services/genome.py:6 | importing `Creator` and `Genome` from the models module fails, so every call raises |
| Genome.UpdateAsWrittenFails | services/genome.py:6 | the models module defines neither record, whatever the document |
| Policy.ClaimReasons | services/policy.py:44-46 | no reason exactly when no blocked claim occurs in the lowered text, and at most one per claim |
| Policy.RemoveClaims | services/policy.py:50-53 | removal never lengthens a field, and a field holding no blocked claim is kept as it is |
| Policy.Sanitize | services/policy.py:50-53 | only script and caption are rewritten; every other key is unchanged |
| Policy.TopicReasons | services/policy.py:40-42 | one reason per banned topic occurring in the text: every such topic has its reason, each reason names one, and there are as many reasons as topics hit |
| Policy.EvaluatePolicy | services/policy.py:24-55 | allowed exactly when there is no reason; allowed content is returned unchanged, blocked content sanitised |
| Experiments.Rates | services/experiments.py:21-26 | no views give `(0, 0)`; otherwise engagement times views is likes plus comments plus shares, and share rate times views is shares |
| Experiments.Priority | services/experiments.py:39-40 | `T+60m`, `T+24h`, `T+48h` rank 1, 2, 3, a missing tag as `T+60m`; exactly the unknown tags rank 0 |
| Experiments.LatestIndex | services/experiments.py:40-41 | the latest point has the highest priority and no later point has it |
| Experiments.Scores | services/experiments.py:43-55 | exactly the variants reported at the point are scored, none when none is reported |
| Experiments.Best | services/experiments.py:58-59 | no score ranks above the best, and every earlier score ranks below it |
| Experiments.ScoresInOrder | services/experiments.py:43-55 | the scores come in the order A, B, C |
| Experiments.ChooseWinner | services/experiments.py:29-59 | no winner without points, or exactly when the latest point has no variant data; otherwise a reported variant that no other outranks by shares per 1k, then engagement, and that strictly outranks every reported variant before it in A, B, C, so a full tie goes to the earliest |
| Experiments.FindLabel | services/experiments.py:99 | the index of the first entry with the tag, none when there is none |
| Experiments.Record | services/experiments.py:97-104 | the entry for the tag gets the metrics for the variant only; a missing entry is appended with the other slots empty |
| Experiments.RecordKeepsUnique | services/experiments.py:97-104 | recording keeps one entry per tag |
| Experiments.AddMetricsPoint | services/experiments.py:89-120 | the point is recorded and the winner recomputed; a winner completes the experiment, otherwise the status is kept |
| Experiments.AddMetricsPointAsWritten | services/experiments.py:7 | importing `Experiment` and `Creator` from the models module fails, so every call raises |
| Experiments.AddMetricsPointAsWrittenFails | services/experiments.py:7 | the models module defines neither record, whatever the experiment |
| Trends.MockTrends | services/trends.py:8-26 | `base[:limit]` of the fixed 15 tags |
| Trends.FirstCallable | services/trends.py:33-36 | the first looked-up name the module defines as callable |
| Trends.LoadProvider | services/trends.py:29-50 | the provider module first, then the API module, skipping one that fails to import |
| Trends.Usable | services/trends.py:64-67 | a list answer, stripped with blanks dropped, is used when something is left |
| Trends.GetTrendingHashtags | services/trends.py:56-81 | the provider's cleaned answer cut to `limit`; a `TypeError` retries positionally; anything else gives the mock tags |
| Trends.AnswerShape | services/trends.py:56-81 | the answer holds non-blank stripped tags, no more than `limit` |
| Trends.RepositoryUsesMock | services/trends.py:29-50 | neither module defines a looked-up name, so the shim always answers with the mock tags |
| TrendsProvider.NormalizeHashtag | services/trends_provider.py:39-60 | nothing for a missing or blank tag; otherwise it starts with `#`, has no whitespace and at least two characters |
| TrendsProvider.NormalizeHashtagNone | services/trends_provider.py:39-60 | a tag is dropped exactly when it is missing, blank or a bare `#` |
| TrendsProvider.NormalizeValid | services/trends_provider.py:39-60 | a well-formed hashtag is its own normal form |
| TrendsProvider.NormalizeIdempotent | services/trends_provider.py:39-60 | normalising a normal form changes nothing |
| TrendsProvider.NormalizeAll | services/trends_provider.py:125 | the tags kept are well formed and the normal forms of inputs, in order |
| TrendsProvider.NormalizeAllValid | services/trends_provider.py:125 | well-formed tags pass through unchanged |
| Seqs.Dedupe | services/trends_provider.py:63-70 | no duplicates, and exactly the elements of the input |
| Seqs.DedupeOrder | services/trends_provider.py:63-70 | the result keeps first occurrences in order: every occurrence of a later element follows an occurrence of each earlier one |
| Seqs.DedupeSnoc | services/trends_provider.py:63-70 | one more element is appended exactly when it was not seen before |
| Seqs.DedupeIdempotent | services/trends_provider.py:63-70 | deduping twice is deduping once |
| Seqs.DedupePrefix | services/trends_provider.py:63-70 | the dedupe of a list starts with the dedupe of its prefix |
| TrendsProvider.Process | services/trends_provider.py:125-126 | valid, distinct, at most `limit` tags |
| TrendsProvider.ProcessProvenance | services/trends_provider.py:125-126 | every tag kept is the normal form of an input tag |
| TrendsProvider.ProcessKeepsAll | services/trends_provider.py:125-126 | with a large enough limit every valid normal form is kept |
| TrendsProvider.ExternalResult | services/trends_provider.py:121-132 | a non-list `hashtags` reads as none; the rest is processed and marked `external` |
| TrendsProvider.StaticTags | services/trends_provider.py:192-204 | the language bucket (English otherwise), with the triggered hint groups in front |
| TrendsProvider.HintTagsSpec | services/trends_provider.py:195-204 | a triggered hint puts all its tags in front; a topic that triggers none leaves the bucket |
| TrendsProvider.StaticFallback | services/trends_provider.py:141-214 | the processed static list, marked `static_fallback` |
| TrendsProvider.Mix | services/trends_provider.py:227-255 | a raising primary gives the fallback unchanged; otherwise primary then fallback tags, deduped, cut to `limit`, source `primary+fallback` |
| TrendsProvider.MixPrimaryFirst | services/trends_provider.py:250 | the mixed list starts with the primary's distinct tags |
| TrendsProvider.ChooseProvider | services/trends_provider.py:258-274 | the mixer exactly when the stripped, lowered setting (default `static`) is `external`; building it raises exactly when the stripped timeout (default `6`) is not float syntax, with `float`'s message, or else when the service URL is blank |
| TrendsProvider.DigitsParse | services/trends_provider.py:90 | every non-empty run of digits, the default `6` among them, is a float |
| TrendsProvider.FractionParses | services/trends_provider.py:90 | two digit runs around a point are a float |
| TrendsProvider.LetterRefused | services/trends_provider.py:90 | a word such as `abc` is not a float |
| TrendsProvider.BadTimeoutRefused | services/trends_provider.py:86-93 | a timeout of `abc` stops the external provider even with the URL set |
| TrendsProvider.DefaultTimeoutMixer | services/trends_provider.py:86-93 | with the timeout unset, an external setting and a set URL build the mixer |
| TrendsProvider.GetHashtags | services/trends_provider.py:95-274 | the static answer for the static provider or a raising service; otherwise the mix of the service's and the static answer; always distinct and within `limit` |
| Pipeline.NebulaModelsAsWritten | pipeline.py:98-102 | reading the undeclared setting raises `AttributeError` |
| Pipeline.NebulaModelsAsWrittenRaises | pipeline.py:99 | every call of the function as written raises |
| Pipeline.NebulaModels | pipeline.py:98-102 | non-empty list of stripped, non-empty names; the Gemini model when nothing remains |
| Pipeline.NebulaModelsRoundTrip | pipeline.py:98-102 | joining names with commas and parsing them gives the names back |
| Pipeline.ExtractText | pipeline.py:143-156 | empty without candidates; otherwise the texts of the first candidate's parts joined by newlines |
| Pipeline.ExtractTextLines | pipeline.py:143-156 | splitting the answer on newlines gives the part texts back |
| Pipeline.FillFallbacks | pipeline.py:244-280 | requested platforms missing from the output get a fallback block; existing keys are never overwritten; LinkedIn's hashtags are the first 8 trends |
| Pipeline.FillFallbacksIdempotent | pipeline.py:244-280 | filling twice is filling once |
| Pipeline.TrendHit | pipeline.py:324-332 | a hit exactly when some non-empty trend occurs in a block |
| Pipeline.Used | pipeline.py:324-335 | no trend used exactly when there is no hit |
| Pipeline.Dominance | pipeline.py:307-357 | score in 0..100; publish from 75, revise from 55, otherwise regenerate; one to three reasons, the default exactly when no criterion holds |
| Pipeline.DominanceScore | pipeline.py:307-357 | on a plan: the score is 50 plus 10, 10, 10 and 8 for the hook, key-point, trend and CTA criteria, minus 6 for generic wording; publish exactly on three bonuses without the penalty or on all four; regenerate exactly below 55; the default reason exactly when no criterion holds |
| Pipeline.DominanceUnclamped | pipeline.py:309-350 | the score lies in 44..88, so the clamp never binds |
| Pipeline.PublishCriteria | pipeline.py:309-352 | publish exactly with three bonuses and no generic wording, or all four bonuses |
| Pipeline.ReasonsOfCriteria | pipeline.py:337-357 | the reasons are those of the criteria that hold, at most three |
| WpilMemory.Load | wpil_memory.py:12-16 | a missing memory file holds no patterns |
| WpilMemory.Store | wpil_memory.py:24-31 | the pattern is appended at the end and earlier patterns are kept |
| WpilMemory.MatchingSpec | wpil_memory.py:43-53 | the filtered list holds exactly the patterns where every filter key reads as its value |
| WpilMemory.GetPatterns | wpil_memory.py:34-53 | no or an empty filter gives every pattern, otherwise the matching ones |
| WpilMemory.MatchingAppend | wpil_memory.py:43-53 | filtering keeps the stored order |
| WpilMemory.MatchingEmpty | wpil_memory.py:39-41 | the empty filter keeps everything |
| WpilMemory.MatchingIdempotent | wpil_memory.py:43-53 | filtering twice is filtering once |
| WpilMemory.StoreThenGet | wpil_memory.py:24-53 | a read after a store is the earlier read plus the new pattern when it matches |
| WpilIngest.FirstKey | wpil_ingest.py:14-40 | the first listed key present (or missing) |
| WpilIngest.Ingest | wpil_ingest.py:14-42 | refused for the first missing field, then for the first forbidden key, leaving memory unchanged; otherwise stored |
| WpilIngest.IngestKeepsStructural | wpil_ingest.py:14-42 | memory filled by ingestion holds only structural patterns |
| WpilIngest.MissingBeforeForbidden | wpil_ingest.py:14-40 | a missing field is reported before a forbidden key |
| WpilSelector.Score | wpil_selector.py:29-39 | at most 6, and 0 exactly when none of platform, niche and intent reads the same in pattern and signal (a key absent on both sides reads the same) |
| WpilSelector.ScorePriority | wpil_selector.py:29-39 | a platform match never scores below a pattern without one; with equal platform results a niche match scores higher; a platform-only match ties a niche-plus-intent match |
| WpilSelector.ScoredSpec | wpil_selector.py:41-45 | the eligible patterns are exactly those with a positive score |
| WpilSelector.Select | wpil_selector.py:20-50 | an error for empty memory or when nothing scores; otherwise a stored pattern with the top score |
| WpilSelector.TopIsEarliestBest | wpil_selector.py:48-50 | the stable reverse sort picks the earliest best-scoring pattern |
| WpilSelector.SelectEarliest | wpil_selector.py:20-50 | the selection is the earliest best pattern when it scores, otherwise no match |
| WpilSelector.SelectAsWritten | wpil_selector.py:6 | importing `load_patterns` fails, so every call raises |
| WpilSelector.SelectAsWrittenFails | wpil_selector.py:6 | the memory module defines no `load_patterns` |
| WpilSelector.SelectWinningPattern | wpil_selector.py:17-50 | selection over the memory's patterns |
| WpilRuntime.Platform | wpil_runtime.py:7 | stripped and lowered, `linkedin` when absent or empty |
| WpilRuntime.Niche | wpil_runtime.py:8 | stripped, `general` when absent or empty |
| WpilRuntime.InvokeWpil | wpil_runtime.py:12-36 | remix exactly when the stripped post is longer than 20; direct uses the defaults and notes `defaults`; remix adds the platform's constraint and names the niche |
| WpilRuntime.DefaultsKeys | wpil_runtime.py:12-19 | the defaults are exactly hook, structure and cta |
| WpilRuntime.RemixAddsOne | wpil_runtime.py:22-30 | remix adds exactly one key for twitter, linkedin and tiktok, none otherwise, and changes no default |
| WpilRuntime.RemixNotesNameNiche | wpil_runtime.py:24 | remix notes contain the niche |
| WpilRuntime.DefaultPlatformRemix | wpil_runtime.py:7-30 | without a platform a remix gets the LinkedIn length hint |

## Left out

- HTTP glue: Flask routing, JSON rendering, `readyz`, `p_to_dict` and the client-IP lookup. Each route's outcome is an enum value.
- Threads: `_spawn_job` starts a thread; here a dispatched job is a pending id that `Routes.RunPending` later runs to completion. Interleavings between runners are not modelled.
- Persistence plumbing: SQLAlchemy, table reflection, JSON and UUID column coercion. The schema is fixed to the columns of models.py, so the optional-column branches of `process_build_pack` take the present-column side.
- Content templates and hashing: `_make_pack_payload`, `_seed` and the builders. Their JSON text is an input (`Generator`).
- Network and foreign calls: `call_gemini` (pipeline.py:104-137), `fetch_url_text`, `extract_genes`, `generate_assets`' prompt, `generate_visual_prompt`, `_safe_json` and the `requests` call of the external trends provider. Their answers are inputs.
- Clocks and randomness: the job tables' `now` is integer seconds; the ISO time stamps of the genome and the trend results are strings passed in; uuids are parameters.
- Floating point: scores, rates and progress are Dafny `real`, so Python's float rounding is not modelled.
- Python `lower()` is ASCII lowercasing; `isspace`, `isdigit` and `\w` are fixed character sets that cover ASCII and the Arabic ranges the code meets, not all of Unicode.
- `_keywords`' regex is modelled by its two character classes directly.
- `str()` of non-string values: JSON inputs are reduced to their string-valued fields.
- Processing.BuildOutcome: a taken pack id raises with a message of the model's own.
- Processing.ErrorText: the not-found message is `Job not found: <id>` without the `(key=..., col_type=...)` suffix tasks.py:422 adds, since the key's repr and the column type come from the database driver.
- TrendsProvider.ChooseProvider: float syntax is checked on ASCII digits only (Python also accepts other Unicode decimal digits), and the quoting in the `ValueError` message is not Python's `repr`.
- `finalize_lift`, `create_experiment` and `ensure_genome` are persistence and float updates. A metrics entry missing a counter, which raises `KeyError`, is not modelled.
- Experiments.Priority: an entry whose `t_label` is stored as `null` reads as a missing tag here, while Python ranks it 0.
- Policy.TopicReasons: Python's set iteration order is left open, so the reasons are stated up to order.
- The static trend buckets are not proved distinct or valid; the providers normalise and dedupe them anyway.
- The WPIL JSON equality uses Dafny's structural equality, not Python's (`1 == 1.0 == True`). A malformed memory file and non-string signal values are not modelled.
- The worker-tick route's `limit` query string is taken already parsed.
- worker.py and rq_queue.py (RQ queue), static/app.js, dominator_brain.py, services/artifacts.py, services/generator.py, services/tiktok.py, services/trends_api.py beyond its top-level names, schemas.py and utils/logging.py are not part of this model.

## Findings

| source | as written | input that shows it | evidently intended | confidence | as-written member | corrected member |
|---|---|---|---|---|---|---|
| pipeline.py:99 | `nebula_models` reads `settings.NEBULA_MODELS`, which `Settings` (config.py:52-76) does not declare, so the read raises `AttributeError` | any call of `nebula_models()` | the comma-separated list of model names from a `NEBULA_MODELS` setting, falling back to the Gemini model | not executed | Pipeline.NebulaModelsAsWrittenRaises | Pipeline.NebulaModelsRoundTrip |
| wpil_selector.py:6 | `from wpil_memory import load_patterns`, but wpil_memory.py defines no `load_patterns` (its loader is `_load_memory`), so the import raises `ImportError` | importing wpil_selector.py | select over the stored patterns | not executed | WpilSelector.SelectAsWrittenFails | WpilSelector.SelectEarliest |
| services/experiments.py:7 | `from models import Experiment, Creator`, but models.py defines only `Base`, `Job` and `Pack`, so the import raises `ImportError` | importing services/experiments.py | record the point and recompute the winner on the stored experiment | not executed | Experiments.AddMetricsPointAsWrittenFails | Experiments.AddMetricsPoint |
| services/genome.py:6 | `from models import Creator, Genome`, but models.py defines neither, so the import raises `ImportError` | importing services/genome.py | append the winning hook to the creator's capped history | not executed | Genome.UpdateAsWrittenFails | Genome.UpdateAppendsCapped |
