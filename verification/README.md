# RSS aggregator ingestion core, modelled in Dafny

This project models the decision logic of the RSS-Aggregator-Scaper ingestion pipeline and the
small stateful and string-processing helpers around it:

- URL canonicalisation: force `https:`, drop the fragment, strip the ten tracking parameters
  case-insensitively.
- The robots.txt politeness gate: a line scanner with a wildcard-group flag and a disallow flag.
- `fetchWithRetry`, with its exponential back-off.
- `ingestOne`: source lookup, robots verdict, RSS/HTML strategy choice with swallowed extractor
  failures, and the insert loop that counts new articles against a store of hashes.
- The RSS entry loop and the HTML per-node scraping loop.
- The full-text heuristic, with the Levenshtein matrix filled in place in a two-dimensional array.
- The in-memory job-state store: a class over a map plus the insertion order of a JavaScript `Map`.
- The batch runner's source filter, counters, crash handler and cancel.
- The fixed-window rate limiter: a class over a map, with its sweep.
- Jaccard token similarity.
- The `Bearer` admin-header check.
- The two request schemas and their error messages.
- The CSV export of a saved view: filter construction, quoting and the row layout.

Collaborators the code only calls are inputs of the model:

- A `Platform` value supplies the URL parser and serialiser, the `Date` parser and SHA-256. They
  are total functions, so equal inputs give equal outputs. A parsed URL records its port (empty for
  the scheme's default), its query parameters, and the query text as parsed. The serialiser writes
  that text back until a parameter is deleted. After a deletion the query is rebuilt from the
  parameter list in form-urlencoded form.
- A `World` value supplies the network answers per attempt and which inserts the database rejects.
- Clock readings (`now`) are method parameters.
- The database query of the export and the ISO time formatter are function parameters.

Stateful code is imperative Dafny:

- The job store and the rate limiter are classes whose methods modify their fields.
- Each loop in the source is a method with a `while` or `for` loop. The loop is proved against a recursive
  specification function, and the lemmas state the source's promises about that function.

Integers are unbounded and strings are `seq<char>`. Ratios (similarity and Jaccard) are
numerator/denominator pairs. "More than 0.8" is the integer comparison `5 * num > 4 * den`.

## Model

| member | source | states |
|---|---|---|
| Text.Lower | src/lib/utils/similarity.ts:2 | lowercasing keeps the length and maps each character through the ASCII case fold |
| Text.TrimStart | src/lib/ingest/robots.ts:7 | the result is a suffix of the input that starts with a non-space, and only whitespace was removed |
| Text.TrimEnd | src/lib/ingest/robots.ts:7 | the result is a prefix of the input that ends with a non-space, and only whitespace was removed |
| Text.Trim | src/lib/ingest/rss.ts:17 | the trimmed text neither starts nor ends with whitespace and is obtained by cutting whitespace only, first from the front and then from the back |
| Normalize.WithoutTracking | src/lib/ingest/normalize.ts:20 | keeps exactly the parameters whose lowercased name is not a tracking name, taken from the input |
| Normalize.WithoutTrackingAppend | src/lib/ingest/normalize.ts:20 | filtering distributes over concatenation, so relative order is kept |
| Normalize.CanonicalUrl | src/lib/ingest/normalize.ts:16-22 | `http:` becomes `https:` and any other scheme is kept. The protocol change drops port 443, the new default; any other port is kept. The fragment is empty. Host and path are unchanged. No tracking parameter remains. The query text is rebuilt from the list exactly when the query is not raw text already or some parameter had a tracking name; otherwise text and list are kept as parsed |
| Normalize.HasTrackingMeaning | src/lib/ingest/normalize.ts:20 | the query has a tracking parameter exactly when some parameter's lowercased name is a tracking name |
| Normalize.NoTrackingKept | src/lib/ingest/normalize.ts:20 | a query without tracking parameters is not changed by the filter |
| Normalize.CanonicalUrlIdempotent | src/lib/ingest/normalize.ts:16-22 | canonicalising a canonical URL changes nothing |
| Normalize.WithoutTrackingIdempotent | src/lib/ingest/normalize.ts:20 | removing tracking parameters twice is the same as removing them once |
| Normalize.DeleteParam | src/lib/ingest/normalize.ts:20 | `searchParams.delete(k)` leaves no parameter named `k`, and every remaining parameter was already there |
| Normalize.DeleteNothing | src/lib/ingest/normalize.ts:20 | deleting no names leaves the query unchanged |
| Normalize.DeleteOneMore | src/lib/ingest/normalize.ts:20 | deleting one more name after a set of names equals deleting the enlarged set |
| Normalize.DeleteTrackedNames | src/lib/ingest/normalize.ts:20 | deleting every tracking name present yields exactly the filtered query |
| Normalize.CanonicalizeInPlace | src/lib/ingest/normalize.ts:17-21 | the step-by-step update of the parsed URL (protocol with its port reset, hash, the delete loop) gives the canonical URL |
| Normalize.DeleteTrackingKeys | src/lib/ingest/normalize.ts:20 | the loop over a snapshot of the keys deletes exactly the tracking parameters; the query text is rebuilt exactly when one was deleted; nothing else changes |
| Normalize.BaseArg | src/lib/ingest/normalize.ts:17 | the base is used only when it is a non-empty string |
| Normalize.Canonicalize | src/lib/ingest/normalize.ts:16-22 | fails exactly when parsing (resolved against the base if one is given) fails, and otherwise returns the serialisation of the canonical form of the parsed URL |
| Normalize.CanonicalizeIdempotent | src/lib/ingest/normalize.ts:16-22 | canonicalising the canonical string of a URL returns it unchanged, provided that string parses back to the canonical URL, with its query held as text, and that URL serialises to the same string |
| Normalize.ToDateSafe | src/lib/ingest/normalize.ts:26-30 | an absent or empty string gives nothing; otherwise the date parser's answer, nothing for an invalid date |
| Normalize.MixedCaseTrackingExample | src/lib/ingest/normalize.ts:18-20 | `utm_Source` is removed, `id` is kept, the query is rebuilt, the scheme is upgraded and the fragment is dropped |
| Normalize.QueryRewrittenExample | src/lib/ingest/normalize.ts:20 | the query `a` is kept as written when nothing is deleted, but is rebuilt from the list (to `a=`) when a `utm_source` parameter is deleted beside it |
| Normalize.DefaultPortDroppedExample | src/lib/ingest/normalize.ts:18 | upgrading `http://a.com:443` to `https:` leaves no explicit port |
| Robots.DropCr | src/lib/ingest/robots.ts:7 | a piece ending in a carriage return loses exactly that one character; any other piece is unchanged |
| Robots.Segments | src/lib/ingest/robots.ts:7 | cuts the text at every line feed into at least one piece, none holding a `\n` |
| Robots.SegmentsRebuild | src/lib/ingest/robots.ts:7 | the pieces, joined again with `\n`, give back the text |
| Robots.SplitLines | src/lib/ingest/robots.ts:7 | the lines are the pieces between line feeds, in order, each but the last without the one carriage return before its line feed; no line holds a `\n` |
| Robots.Lines | src/lib/ingest/robots.ts:7 | one trimmed line per split piece |
| Robots.AgentNotDisallow | src/lib/ingest/robots.ts:11-17 | no line is both a `User-agent:` line and a `Disallow: /` line |
| Robots.Classify | src/lib/ingest/robots.ts:11-17 | a line is a wildcard agent, another agent, a root disallow or neither, each exactly when its pattern matches |
| Robots.Directives | src/lib/ingest/robots.ts:10 | classifies every line, in order |
| Robots.LastStar | src/lib/ingest/robots.ts:11-15 | finds the last wildcard `User-agent` line, or proves there is none |
| Robots.StarMeaning | src/lib/ingest/robots.ts:11-16 | the `star` flag after the scan holds exactly when a wildcard group is open at the end |
| Robots.GroupDisallowsStep | src/lib/ingest/robots.ts:16-17 | one more line extends a group's disallow exactly when it is `Disallow: /` with no agent line in between |
| Robots.DisallowMeaning | src/lib/ingest/robots.ts:8-19 | the `disall` flag after the scan holds exactly when the last wildcard group contains `Disallow: /` before any other agent line |
| Robots.ScanRobots | src/lib/ingest/robots.ts:8-19 | the loop over the lines returns "allowed" exactly when the last wildcard group does not disallow the root |
| Robots.IsAllowed | src/lib/ingest/robots.ts:1-23 | the early returns and the scan give exactly the verdict |
| Robots.Verdict | src/lib/ingest/robots.ts:1-23 | a thrown failure, a non-success status (5xx included) or an unreadable body gives "allowed"; otherwise the verdict is the scan's |
| Robots.NoWildcardGroup | src/lib/ingest/robots.ts:8-19 | a file with no wildcard agent line is allowed |
| Robots.LaterWildcardResets | src/lib/ingest/robots.ts:11-15 | a later wildcard agent line with no root disallow after it resets an earlier disallow |
| RobotsExamples.RootDisallowExample | src/lib/ingest/robots.ts:17 | `Disallow: /` matches the root-disallow pattern |
| RobotsExamples.PathDisallowExample | src/lib/ingest/robots.ts:17 | `Disallow: /private` does not match it |
| Retrying.FetchWithRetry | src/lib/ingest/index.ts:11-22 | the loop's result, call count and recorded sleeps equal the retry specification |
| Retrying.RetryFromMeaning | src/lib/ingest/index.ts:11-22 | from attempt `i` on, the calls before the last one all failed, a success is the last call's value, and the sleeps are `backoffMs * 2^k` |
| Retrying.RetryMeaning | src/lib/ingest/index.ts:11-22 | at most `attempts` calls; the first success is returned; if every call fails, the last error is rethrown after sleeping after every failure including the last; no attempts rethrows `undefined` |
| Retrying.TwoFailuresThenSuccess | src/lib/ingest/index.ts:11-22 | two failures then a success give the third value, after 800 and 1600 ms |
| Retrying.ThreeFailures | src/lib/ingest/index.ts:18-21 | three failures wait 800, 1600 and 3200 ms and rethrow the third error |
| Items.Emitted | src/lib/ingest/rss.ts:13-21 | an entry loop emits at most one item per entry |
| Items.CollectMeaning | src/lib/ingest/rss.ts:13-21 | an entry loop succeeds exactly when no entry throws, and then returns the emitted items in input order |
| Items.CollectFirstThrow | src/lib/ingest/html.ts:17-21 | the loop rethrows the error of the first entry that throws |
| Items.CollectStopsAt | src/lib/ingest/html.ts:17-21 | a throw after a successful prefix ends the loop with that error |
| Items.EmittedAppend | src/lib/ingest/rss.ts:14-20 | the items of a concatenation are the concatenated items |
| Items.EmittedFrom | src/lib/ingest/rss.ts:14-20 | every emitted item comes from some entry |
| Rss.EntryLink | src/lib/ingest/rss.ts:15-16 | the link is `link`, else `guid`, and it is empty exactly when both are missing or empty |
| Rss.EntryDate | src/lib/ingest/rss.ts:18 | prefers `isoDate`, then `pubDate`, and is absent exactly when both are missing or empty |
| Rss.FetchRss | src/lib/ingest/rss.ts:12-21 | the entry loop equals the collection of per-entry steps over the item list |
| Rss.FeedItems | src/lib/ingest/rss.ts:13-21 | at most one item per entry; each item has the canonical URL of a non-empty link, the trimmed title and the entry's date |
| Rss.MissingItemList | src/lib/ingest/rss.ts:14 | a feed without an item list gives no items |
| Rss.SkippedEntries | src/lib/ingest/rss.ts:15-16 | an entry is skipped exactly when it has neither link nor guid |
| HtmlList.Attr | src/lib/ingest/html.ts:19 | an attribute is read only from a present element that has it |
| HtmlList.TextOf | src/lib/ingest/html.ts:22 | the text of a missing element is empty |
| HtmlList.LinkElement | src/lib/ingest/html.ts:18 | the link element is the `linkSelector` match when a selector is given, otherwise the first anchor |
| HtmlList.LinkAttrName | src/lib/ingest/html.ts:19 | the attribute is `linkAttr`, with `href` as default |
| HtmlList.NodeDate | src/lib/ingest/html.ts:23-29 | a date is set only when `dateSelector` is given and the raw value parses to a valid date |
| HtmlList.ScrapeHtmlList | src/lib/ingest/html.ts:14-33 | the per-node loop equals the collection of per-node steps over the matched nodes |
| HtmlList.ScrapedItems | src/lib/ingest/html.ts:17-30 | at most one item per node; every item has a non-empty title and URL, and comes from a node with a link whose URL resolves against the page, with the node's title and date |
| HtmlList.NodeWithoutLink | src/lib/ingest/html.ts:19-20 | a node without the link attribute is skipped |
| Ingest.Scrape | src/lib/ingest/index.ts:49-53 | a scrape yields items only after a successful page fetch with rules that name an `itemSelector` |
| Ingest.ToArticle | src/lib/ingest/index.ts:61-72 | the article's hash is SHA-256 of the canonical URL; the title defaults to the canonical URL; the date defaults to now; and it fails exactly when canonicalisation fails |
| Ingest.ExtractItems | src/lib/ingest/index.ts:35-57 | the strategy code computes the extraction specification: items, feed calls and page calls |
| Ingest.InsertItems | src/lib/ingest/index.ts:59-82 | the insert loop computes the insert specification: new store, created count and the item whose URL could not be parsed |
| Ingest.InsertItem | src/lib/ingest/index.ts:60-81 | one pass: a URL that does not canonicalise ends the run with that error; otherwise the run moves on by one item |
| Ingest.IngestOne | src/lib/ingest/index.ts:24-86 | an unknown source is an error; a disabled or disallowed source creates 0 with no fetch; otherwise it extracts, inserts, returns `created` and stamps `lastFetched`, unless an item URL fails to parse |
| Ingest.InsertStep | src/lib/ingest/index.ts:60-81 | one item either adds its article and counts it, or, for a stored hash or a failing insert, changes nothing |
| Ingest.InsertStopsAt | src/lib/ingest/index.ts:61 | a canonicalisation failure aborts the loop, keeping the inserts made before it |
| Ingest.StrategyChoice | src/lib/ingest/index.ts:36-47 | the feed is read exactly for RSS or AUTO; the page is fetched exactly for HTML or AUTO with no feed items; each is tried at most three times |
| Ingest.ScrapeFailureSwallowed | src/lib/ingest/index.ts:47-56 | without an `itemSelector` the scrape's failure is swallowed and the items stay as the feed left them, empty for an HTML source |
| Ingest.InsertAllGrows | src/lib/ingest/index.ts:59-82 | `created` is at most the number of items and counts exactly the appended articles; the old store is a prefix |
| Ingest.InsertAllNew | src/lib/ingest/index.ts:63-74 | every appended article comes from an item, carries a hash not already stored, and its insert did not fail |
| Ingest.InsertAllUnique | src/lib/ingest/index.ts:76-77 | the store keeps hashes unique |
| Ingest.RerunCreatesNothing | src/lib/ingest/index.ts:59-82 | re-running the items at any later time, with the same insert outcomes, against a store that already holds the hashes the first run stored creates 0 and changes nothing |
| Ingest.SecondRunCreatesNothing | src/lib/ingest/index.ts:59-82 | a second run over the same items at any later time, with the same insert outcomes, creates 0 |
| Ingest.StoredHashesCreateNothing | src/lib/ingest/index.ts:59-82 | whatever inserts would fail, items whose hashes are all stored already create 0 and change nothing |
| Ingest.EveryHashStored | src/lib/ingest/index.ts:59-82 | after a run without error in which no insert fails, every item's hash is stored |
| Ingest.HashStoredAnyTime | src/lib/ingest/index.ts:61-71 | an item's stored hash stays stored at any other clock time: the clock only supplies the default publication date |
| Ingest.HashStoredAt | src/lib/ingest/index.ts:59-82 | after such a run, item `i`'s hash is stored |
| Ingest.SecondRunInAnyWorld | src/lib/ingest/index.ts:59-82 | after a first run in which no insert failed, a second run over the same items at any later time creates 0, whatever inserts would fail in it |
| JobStates.RemoveMembers | src/lib/job-state.ts:78 | removing a key from the order keeps exactly the other keys and keeps them distinct |
| JobStates.RemoveAbsent | src/lib/job-state.ts:78 | removing an absent key leaves the order unchanged |
| JobStates.RemoveMiddle | src/lib/job-state.ts:78 | removing a key keeps the order of the others |
| JobStates.SurvivorsMembers | src/lib/job-state.ts:20-27 | the swept order keeps exactly the keys that are not expired |
| JobStates.JobStore.constructor | src/lib/job-state.ts:14 | the store starts empty |
| JobStates.JobStore.CreateJobState | src/lib/job-state.ts:32-48 | stores and returns a fresh state (counters 0, no failures, not done, not canceled, started and updated now), overwriting an existing id in place |
| JobStates.JobStore.GetJobState | src/lib/job-state.ts:50-52 | returns the stored state, or nothing when absent |
| JobStates.JobStore.UpdateJobState | src/lib/job-state.ts:54-62 | an unknown id changes nothing; otherwise only the supplied fields are set and `updatedAt` becomes now; every other job is unchanged |
| JobStates.JobStore.GetActiveJobId | src/lib/job-state.ts:64-71 | returns the first id in insertion order that is neither done nor canceled, and nothing exactly when no job is active |
| JobStates.JobStore.CleanupExpiredJobs | src/lib/job-state.ts:17-27 | deletes exactly the jobs with `now - updatedAt > 3600000`, keeping the others and their order |
| JobStates.JobStore.DeleteJobState | src/lib/job-state.ts:77-79 | reports whether the id was present, and it is absent afterwards |
| JobStates.JobStore.GetAllJobStates | src/lib/job-state.ts:73-75 | returns exactly the stored states, in insertion order |
| JobStates.Sweep | src/lib/job-state.ts:22-26 | the loop over the entries computes the swept table and the surviving order |
| JobStates.SweptAfter | src/lib/job-state.ts:22-26 | the swept table keeps exactly the visited keys that are not expired, with unchanged states |
| JobStates.SweepStatesStep | src/lib/job-state.ts:23-24 | visiting one more key deletes it exactly when it has expired |
| JobStates.SweepOrderStep | src/lib/job-state.ts:23-24 | visiting one more key removes it from the order exactly when it has expired |
| JobStates.SweptTableValid | src/lib/job-state.ts:20-27 | after the sweep, the order lists exactly the surviving keys, once each |
| IngestRunner.BuildFilter | src/lib/ingest-runner.ts:16-24 | the type is restricted only for RSS or HTML, and the category only for a non-empty slug |
| IngestRunner.Select | src/lib/ingest-runner.ts:26-29 | selects exactly the sources the filter matches, in order |
| IngestRunner.SelectedSources | src/lib/ingest-runner.ts:16-29 | a source is selected exactly when it is enabled, of the requested type unless AUTO or absent, and in the requested category when one is given |
| IngestRunner.FailureMessage | src/lib/ingest-runner.ts:72 | the recorded message is the error's message, else `Unknown error`, and never empty |
| IngestRunner.Successes | src/lib/ingest-runner.ts:68 | successes never exceed completions |
| IngestRunner.EveryCompletionCounted | src/lib/ingest-runner.ts:56-82 | processed = successes + number of failures |
| IngestRunner.FailuresOnlyGrow | src/lib/ingest-runner.ts:73 | the failure list of a prefix of the completions is a prefix of the whole list |
| IngestRunner.CountersStep | src/lib/ingest-runner.ts:63-76 | each completion adds one success or appends one failure with its source id and message |
| IngestRunner.ProgressedStep | src/lib/ingest-runner.ts:76-81 | the update published after a completion advances the stored job by that completion |
| IngestRunner.SnapshotsStep | src/lib/ingest-runner.ts:76-81 | each completion publishes one more snapshot |
| IngestRunner.SnapshotsConsistent | src/lib/ingest-runner.ts:56-82 | the k-th snapshot has processed = k+1 = successes + failures, and earlier failure lists are prefixes of later ones, so copies are never altered |
| IngestRunner.FinishedJob | src/lib/ingest-runner.ts:61-90 | when the completions are those of the job's sources, one each, the job ends done with processed = number of sources = successes + failures, and processed = total for the job opened for those sources |
| IngestRunner.StartIngestAll | src/lib/ingest-runner.ts:12-50 | zero matching sources is an error before any job is created; otherwise a job with total = number of selected sources is created, and a new job id joins the end of the creation order |
| IngestRunner.PublishProgress | src/lib/ingest-runner.ts:76-81 | publishing the counters after completion i advances the stored job by that completion and changes no other job |
| IngestRunner.ProcessIngestJob | src/lib/ingest-runner.ts:52-93 | given one completion per source, it publishes one snapshot per completion and leaves the job done with processed = number of sources; an unknown job is left alone |
| IngestRunner.CrashIngestJob | src/lib/ingest-runner.ts:41-47 | a crash marks the job done and replaces its failures with the single `system` entry |
| IngestRunner.CancelIngestJob | src/lib/ingest-runner.ts:95-105 | returns false and changes nothing for an unknown or done job; otherwise sets canceled and done and returns true |
| RateLimit.Live | src/lib/rate-limit.ts:13-17 | the sweep keeps exactly the entries whose reset time is not before now |
| RateLimit.CeilThousandths | src/lib/rate-limit.ts:63 | the result is the ceiling of the reset time divided by 1000 |
| RateLimit.RateLimiter.constructor | src/lib/rate-limit.ts:2 | the limiter starts empty |
| RateLimit.RateLimiter.CheckRateLimit | src/lib/rate-limit.ts:4-51 | the sweep loop and the update leave the table and the answer the check specification gives |
| RateLimit.RateLimiter.GetRateLimitHeaders | src/lib/rate-limit.ts:53-65 | consumes a request exactly as the check does and reports the limit, the remaining count and the reset in whole seconds, rounded up |
| RateLimit.CheckMeaning | src/lib/rate-limit.ts:4-51 | other keys are only swept; a missing or expired key gets count 1 and `max - 1` remaining; a full key is refused with 0 remaining and left unchanged; otherwise the count grows by one and the reset time is kept |
| RateLimit.WindowBound | src/lib/rate-limit.ts:19-50 | within one window a key gets at most `max(1, maxRequests)` allowed answers, and its count equals the number allowed |
| RateLimit.DefaultLimits | src/lib/rate-limit.ts:4-7 | with the default arguments (5 requests, 60000 ms) a key opening a window has 4 requests left, and at most 5 are allowed within that minute |
| Readability.Min3 | src/lib/extractors/readability.ts:111-115 | `Math.min` of three values is one of them and no larger than any |
| Readability.LevenshteinDistance | src/lib/extractors/readability.ts:95-121 | the matrix loops compute the edit-distance recurrence |
| Readability.DistanceToEmpty | src/lib/extractors/readability.ts:98-104 | the distance to the empty string is the length |
| Readability.CellDiagonal | src/lib/extractors/readability.ts:106-118 | the diagonal of a string against itself is 0 |
| Readability.DistanceSelf | src/lib/extractors/readability.ts:95-121 | d(s, s) = 0 |
| Readability.CellSymmetric | src/lib/extractors/readability.ts:106-118 | the recurrence is symmetric under swapping the strings and the indices |
| Readability.DistanceSymmetric | src/lib/extractors/readability.ts:95-121 | d(a, b) = d(b, a) |
| Readability.CellLowerBound | src/lib/extractors/readability.ts:106-118 | each cell is at least the difference of its indices |
| Readability.CellUpperBound | src/lib/extractors/readability.ts:106-118 | each cell is at most the larger index |
| Readability.DistanceBounds | src/lib/extractors/readability.ts:95-121 | the length difference is at most d, and d is at most the longer length |
| Readability.Similarity | src/lib/extractors/readability.ts:85-93 | the similarity lies in [0, 1] and is 1 when both strings are empty |
| Readability.SimilaritySymmetric | src/lib/extractors/readability.ts:85-93 | the similarity does not depend on the order of its arguments |
| Readability.ShouldExtractFullText | src/lib/extractors/readability.ts:69-83 | true for a null or empty summary and for one shorter than 200 characters; otherwise true exactly when the similarity exceeds 0.8 |
| Readability.LongSummaryShortTitle | src/lib/extractors/readability.ts:72-93 | a summary of at least 200 characters with a title no longer than 0.8 of it gives false |
| Readability.RepeatedLetterExample | src/lib/extractors/readability.ts:72-93 | 500 `A`s against `Title` gives false |
| Readability.SummaryIsTitle | src/lib/extractors/readability.ts:79-80 | a long summary equal to the title gives true |
| Similarity.Jaccard | src/lib/utils/similarity.ts:1-7 | the numerator is the size of the intersection and lies between 0 and a denominator of at least 1 |
| Similarity.SubsetSize | src/lib/utils/similarity.ts:4-5 | the intersection is no larger than the union |
| Similarity.WordsShape | src/lib/utils/similarity.ts:2 | splitting on non-word characters and dropping empty strings gives non-empty runs of word characters, lowercase when the input is |
| Similarity.TokenShape | src/lib/utils/similarity.ts:2-3 | every token is a non-empty lowercase run of word characters |
| Similarity.NoWordCharsNoWords | src/lib/utils/similarity.ts:2 | a string without word characters has no tokens |
| Similarity.JaccardSymmetric | src/lib/utils/similarity.ts:1-7 | the similarity is symmetric |
| Similarity.NoTokensGiveZero | src/lib/utils/similarity.ts:5-6 | two strings without tokens give 0, not 1 |
| Similarity.SameTokensGiveOne | src/lib/utils/similarity.ts:2-6 | the same non-empty token set gives 1 |
| Similarity.CaseIgnored | src/lib/utils/similarity.ts:2-3 | strings equal up to case have the same tokens, and similarity 1 when they have any |
| Similarity.TokensExample | src/lib/utils/similarity.ts:2-6 | `A-b` and `b a` both have the tokens `a` and `b`, so their similarity is 2/2 |
| Similarity.TwoWords | src/lib/utils/similarity.ts:2-3 | two word characters around one non-word character split into two one-letter words |
| Auth.LeadingSpace | src/lib/utils/auth.ts:5 | counts the whitespace run after `Bearer` |
| Auth.BearerCredential | src/lib/utils/auth.ts:5-6 | a captured credential is non-empty and contains no line terminator |
| Auth.CaptureStartIsLast | src/lib/utils/auth.ts:5 | the greedy whitespace run makes the capture start at the last possible position |
| Auth.CaptureMatches | src/lib/utils/auth.ts:5 | a captured credential is the rest of the header after a position where the pattern matches |
| Auth.MatchGivesCapture | src/lib/utils/auth.ts:5-6 | wherever the pattern can match, a credential is captured |
| Auth.BearerCredentialMeaning | src/lib/utils/auth.ts:5-6 | the header matches `^Bearer\s+(.+)$` exactly when a credential is captured, and the capture is the rest of the header after the longest whitespace run |
| Auth.RequireAdmin | src/lib/utils/auth.ts:1-8 | throws exactly when the configured token is unset or empty; true exactly when the header is present and its credential equals the token case-sensitively |
| Auth.OtherSchemeRefused | src/lib/utils/auth.ts:5-6 | a header that does not start with `Bearer` followed by white space, the bare `Bearer` included, gives false |
| Auth.SchemeCaseIgnored | src/lib/utils/auth.ts:5 | the scheme is matched case-insensitively |
| Validation.Field | src/lib/validation/ingest.ts:3-6 | a missing key reads as `undefined` |
| Validation.TypeName | src/lib/validation/ingest.ts:3-10 | the received type is `undefined` exactly for a missing value |
| Validation.ErrorText | src/lib/validation/ingest.ts:19-21 | the error text starts with `Validation error: ` followed by the issue message(s) |
| Validation.StrategyNamed | src/lib/validation/ingest.ts:4 | a strategy is accepted exactly for `AUTO`, `RSS` or `HTML` |
| Validation.StrategyName | src/lib/validation/ingest.ts:4 | each strategy's name parses back to it |
| Validation.ValidateIngestRequest | src/lib/validation/ingest.ts:15-24 | accepts exactly an object whose `strategy` is absent or one of the three names and whose `categorySlug` is absent or a non-empty string, returning those values. A non-object fails with one type issue. An object fails with the strategy's issues, then the slug's, in one message |
| Validation.StrategyIssues | src/lib/validation/ingest.ts:4 | `strategy` raises no issue exactly when it is absent or one of the three names; otherwise one: an enum issue for another string, a type issue for a non-string |
| Validation.SlugIssues | src/lib/validation/ingest.ts:5 | `categorySlug` raises no issue exactly when it is absent or a non-empty string; otherwise one: too short for `""`, a type issue for a non-string |
| Validation.ValidateStatusQuery | src/lib/validation/ingest.ts:26-37 | accepts exactly a present non-empty `jobId` and returns it; a missing one is a null where a string was expected, and an empty one is too short |
| Validation.MissingJobIdMessage | src/lib/validation/ingest.ts:29-33 | a missing `jobId` fails with `Validation error: Expected string, received null` |
| Validation.EmptyJobIdMessage | src/lib/validation/ingest.ts:9 | an empty `jobId` fails with the minimum-length message |
| Validation.NonObjectRejected | src/lib/validation/ingest.ts:3 | a non-object body fails with `Expected object, received` and its type |
| Validation.BothIssuesReported | src/lib/validation/ingest.ts:17-21 | when both fields are wrong, the strategy's message comes first and the slug's second, joined by `, ` |
| Validation.UnknownStrategyMessage | src/lib/validation/ingest.ts:4 | an unknown strategy is reported with the accepted values and the value received |
| Validation.UnknownKeysDropped | src/lib/validation/ingest.ts:3-6 | unknown keys are dropped and absent fields stay absent |
| Export.Constraints | src/app/api/export.csv/route.ts:12-17 | each constraint is present exactly when its filter value is truthy (a non-empty source list for `sources`) |
| Export.ConstraintsMeaning | src/app/api/export.csv/route.ts:12-17 | the query admits an article exactly when it is in the source list, has the status and language, contains `q` in its title ignoring case, and was published at or after `now - fromHours` hours |
| Export.NoFilterAdmitsAll | src/app/api/export.csv/route.ts:11 | a view without a filter admits every article |
| Export.BuildWhere | src/app/api/export.csv/route.ts:12-17 | the successive assignments build the constraints, which admit exactly the wanted articles |
| Export.Escape | src/app/api/export.csv/route.ts:24 | doubling quotes never shortens the text |
| Export.QuoteField | src/app/api/export.csv/route.ts:24-26 | the field is wrapped in quotes, and a missing or empty value gives `""` |
| Export.UnescapeEscape | src/app/api/export.csv/route.ts:24-26 | halving doubled quotes undoes doubling them |
| Export.QuoteRoundTrip | src/app/api/export.csv/route.ts:24-26 | removing the outer quotes and halving the doubled quotes recovers the title or source name |
| Export.RowLayout | src/app/api/export.csv/route.ts:23-28 | a row is the quoted title, the bare canonical URL, the quoted source name and the ISO date, joined by commas; a missing date leaves an empty last field |
| Export.HeaderText | src/app/api/export.csv/route.ts:22 | the header line is exactly `Title,URL,Source,Published` |
| Export.Rows | src/app/api/export.csv/route.ts:23-28 | one row per article |
| Export.Lines | src/app/api/export.csv/route.ts:21-29 | each article line is preceded by a line feed |
| Export.JoinLines | src/app/api/export.csv/route.ts:21-29 | joining a first line and the rows by `\n` is the first line followed by the article lines |
| Export.CsvLayout | src/app/api/export.csv/route.ts:21-29 | the CSV is the header followed by one `\n`-separated line per article in query order, and no articles gives the header alone |
| Export.ExportView | src/app/api/export.csv/route.ts:4-37 | a missing `viewId` gives 400 and an unknown view 404, before any query; otherwise the CSV of the view's query, named `export-<viewId>.csv` |

## Left out

- The BullMQ queues, workers and schedules in `src/lib/queue/index.ts` are configuration of a foreign broker and are not part of this model.
- `ingestAll` (`src/lib/ingest/index.ts:88-104`) is not modelled. Its concurrency limit and the stagger delay between sources are timing only, and `ingestOne` is modelled on its own.
- The `pLimit` concurrency in `processIngestJob` is not modelled. Completions are a sequence, because each completion's bookkeeping runs without interleaving.
- The five-minute `setInterval` that runs the job sweep is left out; the sweep is the method `CleanupExpiredJobs(now)`. The `Date.now()` readings are parameters everywhere.
- Logging is left out, as are the `SCRAPER_USER_AGENT` header value, the feed reader's timeout and the random part of the job id, which is a parameter of `StartIngestAll`.
- Prisma, `fetch`, `rss-parser`, `cheerio` selector evaluation, `new URL`, `new Date` and `crypto` SHA-256 are inputs: `Platform` and `World` values, the matched nodes and parsed entries, and the export query function.
- `extractReadableContent` and `src/lib/ingest/playwright.ts` manipulate a browser DOM; they are not part of this model.
- Ingest.IngestOne: the source table and the article store are values passed in and returned, not a shared database. A rejected insert is a predicate of the `World`. The unique-violation and other-error branches only log, so they are modelled as one case. One clock reading `now` stands for every `new Date()` of the call: the default date of each undated item (`src/lib/ingest/index.ts:71`) and the `lastFetched` stamp (`:84`). So two undated articles of one run get the same date, where the source may give them different ones. No hash depends on the clock (`HashStoredAnyTime`).
- JobStates.JobStore.GetJobState: the model returns the stored state as a value. The source returns the stored object itself, and later writes through it are not modelled.
- JobStates.JobStore.CleanupExpiredJobs: the sweep runs as one step; interleaving with other callbacks is not modelled.
- RateLimit.RateLimiter.CheckRateLimit: Dafny methods have no default arguments, so callers pass `maxRequests` and `windowMs`. The source's defaults are the constants `DefaultMaxRequests` and `DefaultWindowMs`.
- RateLimit.RateLimiter.GetRateLimitHeaders: the headers are integers; the decimal rendering by `toString` is not modelled.
- Text.Lower: case folding is ASCII only. JavaScript `toLowerCase` also folds non-ASCII letters. The tracking names, the `Bearer` pattern and the robots patterns are ASCII. But `Similarity.Jaccard` lower-cases arbitrary text, and some non-ASCII letters lower-case to ASCII word characters: U+212A (Kelvin sign) gives `k` and U+0130 gives `i` followed by a combining dot. So `jaccardSimilarity("\u212A", "k")` is 1 in the source and 0 in the model.
- Export.ConstraintsMeaning: the database's case-insensitive `contains` is modelled with the same ASCII folding.
- Readability.Similarity: string lengths are counted in characters, where JavaScript counts UTF-16 code units.
- Readability.ShouldExtractFullText: the `summary.length < 200` test counts characters, where JavaScript counts UTF-16 code units; a summary with characters outside the Basic Multilingual Plane can fall on different sides of 200.
- Validation.ValidateIngestRequest: JSON numbers are integers. A message is modelled for each of the three issue kinds the schemas raise, with zod 3's default English wording.
- Export.ExportView: filter values are modelled with their intended types. Non-string values, a fractional `fromHours` and a malformed stored filter (which makes `JSON.parse` throw a server error) are not modelled. The `Content-Type` header and the ordering clause of the query are left out; `query` returns the rows already ordered.
