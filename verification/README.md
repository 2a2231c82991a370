# Flaky-test analyzer, modelled in Dafny

This project models the core of the flaky-test analyzer. It has three parts.

- **Reporter logger.** It aggregates each Playwright test's attempts into one
  record and flags the record flaky.
- **Dashboard API.** For every flaky record it seeds an analysis and runs the
  two analysis passes:
  - *feature extraction*: timing, error fingerprints, attachments and console
    hints;
  - *diagnostic rules*: ten base heuristics, passed/failed log differences,
    error-message consistency, and log consistency across failures measured
    by Jaccard similarity.

  It then projects the analysis into the response shape.
- **Test card.** Pure display helpers: the colour and icon for a status, and
  the shortened path shown after a copy.

## Module layout

| module | file | what it holds |
|---|---|---|
| `Wrappers` | `wrappers.dfy` | `Option` |
| `Seqs` | `seqs.dfy` | duplicate-free sequences (a JavaScript `Set` in insertion order), filter, map and unions |
| `Strings` | `strings.dfy` | `split`/`join`, `trim`, ASCII lower-casing, substring search |
| `Types` | `types.dfy` | the report's records: statuses, errors, attachments, attempts, aggregated results |
| `LogLines` | `loglines.dfy` | log-line normalisation and the unique-log-lines loop |
| `Patterns` | `patterns.dfy` | the analyzer's four regular expressions as predicates |
| `Analysis` | `analysis.dfy` | the analysis record and its "only adds reasons" relation |
| `Extractor` | `extractor.dfy` | feature extraction |
| `Similarity` | `similarity.dfy` | Jaccard similarity and its pairwise average |
| `Rules` | `rules.dfy` | the diagnostic rules |
| `Route` | `route.dfy` | the per-test pipeline and the report map of the API |
| `Logger` | `logger.dfy` | the reporter's test-run logger |
| `Card` | `card.dfy` | the card's status appearance, `truncate` and parent path |

## How the model is built

**Mutation.** Every mutating step of the source is a pure function from the
old value to the new one:

- the analysis object passed around by reference;
- the logger's `Map`;
- the `Set` of reasons.

**The analyzer's loop.** The loop of `extractBaseFeatures` is a left fold over
the attempts. Each attempt first becomes its contribution: its duration, its
status, its error fingerprint, its classified paths, its log lines and whether
its console output matches. The fold then accumulates the contributions.

**Per-failure log sets.** The source hands these from the first pass to the
second through a hidden field of the analysis. The model returns them beside
the analysis instead.

**Thresholds.** The thresholds 0.3 and 0.7 are exact reals. Lemmas restate
them in integers: `u/f > 0.3` is `10u > 3f`, and `u < 0.7f` is `10u < 7f`.

**Case-insensitive regular expressions.** These lack the `u` flag, and all
their words are ASCII. In that mode no non-ASCII character folds onto an ASCII
letter. So testing the ASCII-lower-cased text for the lower-case words is
exact.

**Empty `path`.** An empty `path` on an attachment is falsy in the source and
is treated as absent.

**Infinity.** The minimum duration starts at `Infinity`, modelled as
`ExtInt.PosInfinity`.

## Model

| member | source | states |
|---|---|---|
| `LogLines.NormalizeLineWellFormed` | flaky-analyzer-dashboard/src/services/flaky-reason-analyzer.ts:41-45 | a line that is not blank after trimming normalises to a non-empty, trimmed, lower-case log line |
| `LogLines.PartsLinesMember` | flaky-analyzer-dashboard/src/services/flaky-reason-analyzer.ts:38-46 | a line is contributed by the raw lines of a chunk exactly when some non-blank raw line normalises to it |
| `LogLines.AddChunkLines` | flaky-analyzer-dashboard/src/services/flaky-reason-analyzer.ts:38-46 | the innermost loop adds to the set exactly the normalised non-blank lines of the chunk |
| `LogLines.AddAttemptLines` | flaky-analyzer-dashboard/src/services/flaky-reason-analyzer.ts:35-48 | the middle loop adds exactly the lines of the attempt's stdout and stderr chunks |
| `LogLines.ExtractUniqueLogLines` | flaky-analyzer-dashboard/src/services/flaky-reason-analyzer.ts:31-52 | the three nested loops compute the union of the attempts' line sets, and every line in it is non-empty, trimmed and lower case |
| `LogLines.UniqueLogLines` | flaky-analyzer-dashboard/src/services/flaky-reason-analyzer.ts:31-52 | the set for several attempts contains every line of each of them |
| `LogLines.LogLinesMember` | flaky-analyzer-dashboard/src/services/flaky-reason-analyzer.ts:31-52 | a line is in the set of several attempts exactly when it is in the set of one of them |
| `LogLines.LogLinesAppend` | flaky-analyzer-dashboard/src/services/flaky-reason-analyzer.ts:31-52 | the set of two groups of attempts is the union of their sets |
| `LogLines.LogLinesSingle` | flaky-analyzer-dashboard/src/services/flaky-reason-analyzer.ts:76-78 | the set extracted for `[attempt]` is that attempt's own line set |
| `LogLines.LogLinesWellFormed` | flaky-analyzer-dashboard/src/services/flaky-reason-analyzer.ts:41-45 | every line of any extracted set is non-empty, trimmed and lower case |
| `Patterns.ConsoleKeywordAroundNewline` | flaky-analyzer-dashboard/src/services/flaky-reason-analyzer.ts:104-106 | the keyword pattern matches two texts joined by a line break exactly when it matches one of them, so no keyword spans a break |
| `Patterns.ConsoleKeywordJoin` | flaky-analyzer-dashboard/src/services/flaky-reason-analyzer.ts:104-106 | the console output joined with line breaks matches the keyword pattern exactly when one of its chunks does |
| `Analysis.MinExt` | flaky-analyzer-dashboard/src/services/flaky-reason-analyzer.ts:68 | `Math.min` of the running minimum, which may be infinite, and a duration is finite, at most both, and one of the two |
| `Extractor.MessageKey` | flaky-analyzer-dashboard/src/services/flaky-reason-analyzer.ts:82-83 | the deduplication key of an error is a prefix of its message, or of "Unknown Error" when the message is absent or empty |
| `Extractor.MessageKeyIsFirstLines` | flaky-analyzer-dashboard/src/services/flaky-reason-analyzer.ts:82-83 | the deduplication key splits back into the first five lines of the message (or "Unknown Error"); it is a prefix of the message; a message of at most five lines is its own key |
| `Extractor.ErrorType` | flaky-analyzer-dashboard/src/services/flaky-reason-analyzer.ts:85-88 | the type label of an error is never empty |
| `Extractor.ErrorTypeLabel` | flaky-analyzer-dashboard/src/services/flaky-reason-analyzer.ts:85-88 | the label is "TimeoutError" whenever the message contains "timeout" in any ASCII case; otherwise it is the error's value, or "Error" when that is absent or empty |
| `Extractor.TimeoutAcrossLines` | flaky-analyzer-dashboard/src/services/flaky-reason-analyzer.ts:82-86 | joining the message's lines with spaces does not change whether it contains "timeout" in any ASCII case |
| `Extractor.ErrorDefaults` | flaky-analyzer-dashboard/src/services/flaky-reason-analyzer.ts:82-88 | an error whose message is absent or empty is keyed "Unknown Error", and its label is then the error's value, or "Error" when that is absent or empty too (the fallback text never mentions a timeout) |
| `Extractor.Classify` | flaky-analyzer-dashboard/src/services/flaky-reason-analyzer.ts:94-102 | an attachment goes to a path list only when its path is non-empty |
| `Extractor.ClassifyPrecedence` | flaky-analyzer-dashboard/src/services/flaky-reason-analyzer.ts:94-102 | only an attachment with a non-empty path is listed; a "trace" name beats an image content type, which beats a video one |
| `Extractor.ClassifiedPathsFrom` | flaky-analyzer-dashboard/src/services/flaky-reason-analyzer.ts:94-102 | every collected path is the non-empty path of an attachment of that kind |
| `Extractor.ClassifiedNonEmpty` | flaky-analyzer-dashboard/src/services/flaky-reason-analyzer.ts:94-102 | an attempt contributes a path to a list exactly when one of its attachments belongs in that list |
| `Extractor.MeanBounds` | flaky-analyzer-dashboard/src/services/flaky-reason-analyzer.ts:114-133 | the mean of non-empty durations that all lie in `[lo, hi]` lies in `[lo, hi]` too |
| `Extractor.ExtractBaseFeatures` | flaky-analyzer-dashboard/src/services/flaky-reason-analyzer.ts:54-149 | the first pass over a test's attempts; it carries no contract of its own, and the `Extract*` rows below state its result field by field |
| `Extractor.ExtractMinMax` | flaky-analyzer-dashboard/src/services/flaky-reason-analyzer.ts:66-69 | the final minimum and maximum bound the starting values and every duration, and each equals its starting value or some attempt's duration |
| `Extractor.ExtractAverage` | flaky-analyzer-dashboard/src/services/flaky-reason-analyzer.ts:114-119 | the average is the mean of all durations; with no attempt it is left unchanged |
| `Extractor.ExtractPassedAverage` | flaky-analyzer-dashboard/src/services/flaky-reason-analyzer.ts:121-126 | the passed average is the mean of the passed attempts' durations, or unchanged when there is none |
| `Extractor.ExtractFailedAverage` | flaky-analyzer-dashboard/src/services/flaky-reason-analyzer.ts:128-133 | the failed average is the mean of the failed or timed-out attempts' durations, or unchanged when there is none |
| `Extractor.ExtractVariance` | flaky-analyzer-dashboard/src/services/flaky-reason-analyzer.ts:135-142 | the variance flag is set exactly when it already was, or there are more than one attempt, a passed one and a failed or timed-out one, and the maximum exceeds twice the minimum |
| `Extractor.ExtractErrorCount` | flaky-analyzer-dashboard/src/services/flaky-reason-analyzer.ts:80-81 | the count grows by the number of failed or timed-out attempts that carry an error |
| `Extractor.ExtractErrorMessages` | flaky-analyzer-dashboard/src/services/flaky-reason-analyzer.ts:80-144 | the messages are replaced by the distinct keys of those attempts, in order of first occurrence |
| `Extractor.ExtractErrorTypes` | flaky-analyzer-dashboard/src/services/flaky-reason-analyzer.ts:85-145 | the types are replaced by the distinct labels of those attempts, in order of first occurrence |
| `Extractor.ExtractAttachments` | flaky-analyzer-dashboard/src/services/flaky-reason-analyzer.ts:94-102 | each path list grows by the classified paths of the failed or timed-out attempts, in attempt and attachment order |
| `Extractor.ExtractHints` | flaky-analyzer-dashboard/src/services/flaky-reason-analyzer.ts:104-110 | the console hint is added, once, exactly when some failed or timed-out attempt's console output matches the keyword pattern |
| `Extractor.ExtractLogSets` | flaky-analyzer-dashboard/src/services/flaky-reason-analyzer.ts:76-78 | one log-line set per failed or timed-out attempt, in attempt order |
| `Extractor.ExtractKeeps` | flaky-analyzer-dashboard/src/services/flaky-reason-analyzer.ts:54-149 | extraction leaves the identity fields and the reasons unchanged |
| `Similarity.Jaccard` | flaky-analyzer-dashboard/src/services/flaky-reason-analyzer.ts:276-287 | the similarity of two sets (1 for two empty sets) lies in `[0, 1]` |
| `Similarity.JaccardSymmetric` | flaky-analyzer-dashboard/src/services/flaky-reason-analyzer.ts:276-287 | the similarity does not depend on the order of the two sets |
| `Similarity.JaccardOne` | flaky-analyzer-dashboard/src/services/flaky-reason-analyzer.ts:276-287 | the similarity is 1 exactly when the sets are equal, two empty sets included |
| `Similarity.JaccardZero` | flaky-analyzer-dashboard/src/services/flaky-reason-analyzer.ts:276-287 | the similarity is 0 exactly when the sets are disjoint and not both empty |
| `Similarity.SumPairs` | flaky-analyzer-dashboard/src/services/flaky-reason-analyzer.ts:268-291 | the nested loops sum the similarity of every pair `i < j` and count `n(n-1)/2` pairs |
| `Similarity.PairCountIsPairsCounted` | flaky-analyzer-dashboard/src/services/flaky-reason-analyzer.ts:271-291 | the pairs visited row by row number `n(n-1)/2` |
| `Similarity.AverageSimilarity` | flaky-analyzer-dashboard/src/services/flaky-reason-analyzer.ts:301 | the average similarity over the pairs (1 when there is no pair) lies in `[0, 1]` |
| `Similarity.AverageOne` | flaky-analyzer-dashboard/src/services/flaky-reason-analyzer.ts:301 | with two or more sets the average is 1 exactly when all the sets are equal |
| `Similarity.AverageZero` | flaky-analyzer-dashboard/src/services/flaky-reason-analyzer.ts:301 | two or more pairwise-disjoint non-empty sets average 0 |
| `Rules.ApplyRulesSpec` | flaky-analyzer-dashboard/src/services/flaky-reason-analyzer.ts:151-195 | a sequence of guarded `add`s changes only the reasons, keeps them duplicate-free, and adds exactly the tags of the rules that fire |
| `Rules.ApplyBaseHeuristics` | flaky-analyzer-dashboard/src/services/flaky-reason-analyzer.ts:151-195 | the base heuristics change nothing but the reasons, and only by appending tags |
| `Rules.BaseHeuristicsTags` | flaky-analyzer-dashboard/src/services/flaky-reason-analyzer.ts:151-195 | the base heuristics change only the reasons, and a tag is present afterwards exactly when it was before or its condition holds (e.g. the trace-timeout tag needs both a TimeoutError type and a trace) |
| `Rules.BaseTagsOnlyFromBase` | flaky-analyzer-dashboard/src/services/flaky-reason-analyzer.ts:310-333 | no rule group after the base heuristics adds a base tag, so the second pass concludes a base tag exactly when its base heuristic does |
| `Rules.RatioAboveThreshold` | flaky-analyzer-dashboard/src/services/flaky-reason-analyzer.ts:218-220 | `u / f > 0.3` exactly when `10u > 3f` |
| `Rules.SignificantDifferenceInIntegers` | flaky-analyzer-dashboard/src/services/flaky-reason-analyzer.ts:209-220 | the log-difference condition in integers: some failed lines, `10u > 3f`, and more than two lines only in failures |
| `Rules.AnalyzeLogDifferences` | flaky-analyzer-dashboard/src/services/flaky-reason-analyzer.ts:197-223 | the log-difference rule changes only the reasons and only adds to them |
| `Rules.LogDifferencesTag` | flaky-analyzer-dashboard/src/services/flaky-reason-analyzer.ts:197-223 | the log-difference tag is added exactly when there are passed and failed attempts, and the failed-only lines exceed 30% of the failed lines and number more than two; nothing else is added |
| `Rules.AnalyzeErrorConsistency` | flaky-analyzer-dashboard/src/services/flaky-reason-analyzer.ts:225-258 | the error-consistency rule changes only the reasons and only adds to them |
| `Rules.ErrorConsistencyBands` | flaky-analyzer-dashboard/src/services/flaky-reason-analyzer.ts:225-258 | with more than one failure and at least one distinct message, exactly one band tag is added: "Consistent" for one message, "Somewhat Diverse" for `1 < u` with `10u < 7f`, "Highly Diverse" for `1 < u` with `10u >= 7f`; otherwise none |
| `Rules.AnalyzeLogConsistencyInFailures` | flaky-analyzer-dashboard/src/services/flaky-reason-analyzer.ts:260-308 | the log-consistency rule changes only the reasons and only adds to them |
| `Rules.LogConsistencyTags` | flaky-analyzer-dashboard/src/services/flaky-reason-analyzer.ts:260-308 | with two or more failure sets, "Consistent Log Pattern" is added when the average similarity exceeds 0.7, and "Diverse Log Pattern" when it is below 0.3 and some set is non-empty; at most one tag is added |
| `Rules.EqualLogsConsistent` | flaky-analyzer-dashboard/src/services/flaky-reason-analyzer.ts:271-304 | two or more equal failure sets yield "Consistent Log Pattern" |
| `Rules.DisjointLogsDiverse` | flaky-analyzer-dashboard/src/services/flaky-reason-analyzer.ts:271-306 | two or more pairwise-disjoint non-empty failure sets yield "Diverse Log Pattern" |
| `Rules.ApplyDiagnosticRules` | flaky-analyzer-dashboard/src/services/flaky-reason-analyzer.ts:310-333 | the second pass changes nothing but the reasons, and only by appending tags |
| `Rules.DiagnosticRulesTags` | flaky-analyzer-dashboard/src/services/flaky-reason-analyzer.ts:310-333 | the second pass changes only the reasons, and a tag is present afterwards exactly when it was before or one of the four rule groups concludes it |
| `Rules.SingleFailureNoPatternTags` | flaky-analyzer-dashboard/src/services/flaky-reason-analyzer.ts:229-266 | with at most one failed attempt, no error-band or log-pattern tag is added |
| `Route.AnalyzeSingleFlakyTest` | flaky-analyzer-dashboard/src/app/api/flaky-analysis/route.ts:21-72 | an analysis is returned exactly for a flaky test |
| `Route.SingleFlakyTestProjection` | flaky-analyzer-dashboard/src/app/api/flaky-analysis/route.ts:25-66 | only a flaky test gets an analysis; it carries the full analysis's reasons, summary, timing, hints and path lists; each count is its list's length |
| `Route.AnalyzeReport` | flaky-analyzer-dashboard/src/app/api/flaky-analysis/route.ts:83-86 | one result per report record, in order, each with the record's id and with an analysis exactly when the record is flaky |
| `Route.ReportShape` | flaky-analyzer-dashboard/src/app/api/flaky-analysis/route.ts:83-86 | one result per report record, in order, keeping the record's fields and carrying its analysis exactly when it is flaky |
| `Route.RulesKeepFeatures` | flaky-analyzer-dashboard/src/app/api/flaky-analysis/route.ts:48-50 | after extraction, the second pass changes nothing but the reasons |
| `Route.SeedMinMax` | flaky-analyzer-dashboard/src/app/api/flaky-analysis/route.ts:29-50 | from the seed `Infinity` and -1, with one or more attempts: the minimum is finite, every duration lies between minimum and maximum, both are attained, and one attempt gives both |
| `Route.SeedAverages` | flaky-analyzer-dashboard/src/app/api/flaky-analysis/route.ts:29-50 | the averages are the exact means of all, the passed, and the failed or timed-out durations; an empty group keeps 0 or null |
| `Route.SeedAverageWithin` | flaky-analyzer-dashboard/src/app/api/flaky-analysis/route.ts:29-50 | with one or more attempts the average lies between the minimum and the maximum |
| `Route.SeedVariance` | flaky-analyzer-dashboard/src/app/api/flaky-analysis/route.ts:29-50 | the variance flag is set exactly when there are more than one attempt, a passed one and a failed one, and the maximum exceeds twice the minimum |
| `Route.SeedErrors` | flaky-analyzer-dashboard/src/app/api/flaky-analysis/route.ts:29-50 | the error count is the number of failures with an error; messages and types are their distinct keys and labels in order, duplicate-free, and no more than the count |
| `Route.SeedAttachments` | flaky-analyzer-dashboard/src/app/api/flaky-analysis/route.ts:29-50 | the path lists are exactly the classified paths of the failed or timed-out attempts, in order |
| `Route.SeedTraceOrigin` | flaky-analyzer-dashboard/src/app/api/flaky-analysis/route.ts:29-50 | every listed trace path is the non-empty path of a trace attachment of a failed or timed-out attempt |
| `Route.SeedHints` | flaky-analyzer-dashboard/src/app/api/flaky-analysis/route.ts:29-50 | the hints are the console hint alone when some failure's console output matches the keyword pattern, and empty otherwise |
| `Route.SeedHintsByChunk` | flaky-analyzer-dashboard/src/app/api/flaky-analysis/route.ts:29-50 | the console hint is listed exactly when a single stdout or stderr chunk of a failed or timed-out attempt matches the pattern |
| `Route.SeedReasons` | flaky-analyzer-dashboard/src/app/api/flaky-analysis/route.ts:29-50 | the returned reasons have no duplicate, and a tag is present exactly when a rule group concludes it from the extracted features |
| `Route.SeedBaseTag` | flaky-analyzer-dashboard/src/app/api/flaky-analysis/route.ts:48-50 | a base tag is among the returned reasons exactly when its base heuristic fires on the features of the first pass |
| `Route.SeedSpread` | flaky-analyzer-dashboard/src/services/flaky-reason-analyzer.ts:135-139 | with more than one attempt, the maximum exceeds twice the minimum exactly when one attempt took more than twice as long as another |
| `Route.SeedTimingReason` | flaky-analyzer-dashboard/src/services/flaky-reason-analyzer.ts:135-154 | the timing tag is returned exactly when there is more than one attempt, a passed one and a failed or timed-out one, and one attempt took more than twice as long as another |
| `Route.SeedTimeoutReasons` | flaky-analyzer-dashboard/src/services/flaky-reason-analyzer.ts:155-161 | the timeout tag is returned exactly when the label of some failed or timed-out attempt's error contains "TimeoutError"; the timeout-trace tag exactly when both the timeout tag and the trace tag are |
| `Route.SeedMessageReasons` | flaky-analyzer-dashboard/src/services/flaky-reason-analyzer.ts:162-182 | each of the element-state, selector and navigation tags is returned exactly when the message key of some failed or timed-out attempt's error matches that tag's pattern |
| `Route.SeedConsoleReason` | flaky-analyzer-dashboard/src/services/flaky-reason-analyzer.ts:104-185 | the console tag is returned exactly when one stdout or stderr chunk of a failed or timed-out attempt matches the keyword pattern |
| `Route.SeedAttachmentReasons` | flaky-analyzer-dashboard/src/services/flaky-reason-analyzer.ts:94-194 | the trace, screenshot and video tags are each returned exactly when a failed or timed-out attempt carries an attachment with a non-empty path that belongs in that list: named "trace"; else an `image/` content type; else a `video/` one |
| `Logger.FlakyRule` | flaky-analyzer-plugin/test-run-loger/test-run-loger.ts:45-53 | the flakiness rule's length test is redundant: a record is flaky exactly when it has a passed and a failed or timed-out attempt |
| `Logger.RecordConsistent` | flaky-analyzer-plugin/test-run-loger/test-run-loger.ts:31-53 | recording an attempt appends it, makes its status final, and leaves the record consistent: non-empty, final status of the last attempt, flag by the rule |
| `Logger.LogTestAttempt` | flaky-analyzer-plugin/test-run-loger/test-run-loger.ts:15-54 | after logging, the keys are the old keys plus the test's id, and the test's attempts are its earlier attempts (none for a new test) followed by the new one |
| `Logger.LogTestAttemptSpec` | flaky-analyzer-plugin/test-run-loger/test-run-loger.ts:15-54 | one logged attempt: a new test gets a record with its id, title and location and one attempt; an existing record gets the attempt appended and its flag recomputed; no other record changes |
| `Logger.EmptyLogValid` | flaky-analyzer-plugin/test-run-loger/test-run-loger.ts:7 | the empty logger satisfies its invariant |
| `Logger.LogTestAttemptValid` | flaky-analyzer-plugin/test-run-loger/test-run-loger.ts:18-27 | logging keeps each key once in first-seen order and every record under its own id, appending a new test's id |
| `Logger.LogTestAttemptConsistent` | flaky-analyzer-plugin/test-run-loger/test-run-loger.ts:29-53 | logging keeps every record consistent |
| `Logger.FlakyStaysFlaky` | flaky-analyzer-plugin/test-run-loger/test-run-loger.ts:45-53 | a flaky test stays flaky whatever is logged next |
| `Logger.OppositeOutcomeMakesFlaky` | flaky-analyzer-plugin/test-run-loger/test-run-loger.ts:43-53 | a pass logged after a failure, or a failure after a pass, makes the test flaky |
| `Logger.GetAggregatedResults` | flaky-analyzer-plugin/test-run-loger/test-run-loger.ts:56-58 | one record per key, the i-th being the stored record of the i-th test seen, and exactly the stored records |
| `Logger.GetFlakyTests` | flaky-analyzer-plugin/test-run-loger/test-run-loger.ts:60-62 | exactly the stored records flagged flaky, in first-seen order: their ids are the flaky ids in key order |
| `Logger.ReplayOrder` | flaky-analyzer-plugin/test-run-loger/test-run-loger.ts:15-27 | after a run the logger is valid and holds a record for exactly the tests seen, in first-seen order |
| `Logger.ReplayAttempts` | flaky-analyzer-plugin/test-run-loger/test-run-loger.ts:29-41 | after a run each record's attempts are that test's results in the order they were logged |
| `Logger.ReplayConsistent` | flaky-analyzer-plugin/test-run-loger/test-run-loger.ts:41-53 | after a run every record is consistent |
| `Logger.ReplayFlaky` | flaky-analyzer-plugin/test-run-loger/test-run-loger.ts:43-53 | after a run a test's final status is its last result's, and it is flaky exactly when one of its results passed and another failed or timed out |
| `Card.StatusAppearance` | flaky-analyzer-dashboard/src/components/flaky-test-card.tsx:32-47 | red marks exactly the failed and timed-out statuses |
| `Card.StatusColors` | flaky-analyzer-dashboard/src/components/flaky-test-card.tsx:32-47 | red marks exactly failed and timed-out, green exactly passed, gray exactly skipped, yellow exactly interrupted; no two statuses look alike |
| `Card.Truncate` | flaky-analyzer-dashboard/src/components/flaky-test-card.tsx:78-87 | a text within the limit is unchanged; a longer one has the clamped prefix length plus five plus the clamped suffix length |
| `Card.TruncateSpec` | flaky-analyzer-dashboard/src/components/flaky-test-card.tsx:78-87 | a text within the limit is unchanged; a longer one becomes its clamped prefix, five dots and its clamped suffix |
| `Card.TruncateWithinText` | flaky-analyzer-dashboard/src/components/flaky-test-card.tsx:78-87 | with prefix and suffix lengths within the text, a long text keeps exactly its first and last characters around five dots |
| `Card.ParentPath` | flaky-analyzer-dashboard/src/components/flaky-test-card.tsx:69 | a path without '/' has the empty parent |
| `Card.ParentPathSpec` | flaky-analyzer-dashboard/src/components/flaky-test-card.tsx:69 | the parent path, a '/' and the last segment rebuild the path; a path without '/' has the empty parent |
| `Card.CopiedPathPreviewSpec` | flaky-analyzer-dashboard/src/components/flaky-test-card.tsx:68-75 | the toast shows the parent path when it has at most 50 characters, and otherwise exactly 55 characters: its first 20, five dots, its last 30 |

Two consequences of these contracts are worth stating.

- **The preview can outgrow the path.** By `Card.CopiedPathPreviewSpec`, a
  parent path of 51 to 54 characters gives a 55-character preview, which is
  longer than the path itself. The arguments `(50, 20, 30)` have
  `20 + 5 + 30 > 50`.
- **Two empty-log failures count as consistent.** By `Similarity.JaccardOne`
  and `Rules.LogConsistencyTags`, two failures that both logged nothing have
  similarity 1. They therefore yield "Consistent Log Pattern in Failures". The
  explicit empty-sets branch of the similarity loop shows that this is
  intended.

## Left out

- **I/O.** The model does not cover reading and parsing the report file, the
  `NextResponse` replies, the 404/500 error paths of `GET`, the console logs,
  or `saveReport`. They are I/O. `AnalyzeReport` starts from the parsed
  records.
- **The `try`/`catch` in `analyzeSingleFlakyTest`.** In the typed model the
  passes cannot throw, so the `catch` branch (returning `undefined`) is not
  modelled.
- **`Buffer` chunks.** Console output and attachments carried as `Buffer`
  values are not modelled: chunks are strings. The source skips non-string
  chunks when collecting log lines but stringifies them when joining the
  console output.
- **Fields that are never read.** The model omits `TestError` fields other
  than `message` and `value`, and attachment bodies.
- **The test location.** The logger builds it with `path.relative`, the
  project's test directory and `process.cwd()`. The model receives it already
  formatted as `file:line:column`.
- **Non-ASCII `toLowerCase`.** Log lines and the timeout check are lower-cased
  in ASCII only. The source uses full Unicode lower-casing, so non-ASCII log
  lines may normalise differently. String lengths are counted in characters,
  not UTF-16 code units.
- **Floating point.** Durations, sums, averages and similarities are exact
  rationals.
  - The double comparison `u < f * 0.7` agrees with the exact one while `f`
    is below a million.
  - `u / f > 0.3` agrees with `10u > 3f` while `f` is below 2000.
  - Averages and similarity sums may differ from IEEE rounding in the last
    place.
- **The unused dead branch.** The `pairCount === 0 && length === 1` branch of
  `analyzeLogConsistencyInFailures` is not modelled. The earlier
  `length <= 1` return makes it unreachable.
- **The undefined case.** The `undefined` case of the log sets is not
  modelled: the model always passes them.
- **JSON output of `Infinity`.** A test with no attempts keeps the minimum at
  `Infinity`, which JSON serialises as `null`. The model keeps it as
  `PosInfinity`.
- **Display-only parts of the card.** The JSX markup, icons and toast, and
  the clipboard call are not modelled. The `default` branch of
  `getStatusAppearance` is also left out: the status type is a closed union,
  and the model's status datatype has exactly its five members.
- **`truncate` arguments.** Non-integer arguments to `truncate` are not
  modelled: the only call passes integers.
- **Plugin and dashboard wiring.** The reporter plugin's wiring to the logger
  and the dashboard's store are not modelled.
- **`Logger.GetAggregatedResults` and `Logger.GetFlakyTests`:** both require
  the logger's invariant `Valid`. That invariant holds of the empty logger
  (`Logger.EmptyLogValid`) and is kept by every logged attempt
  (`Logger.LogTestAttemptValid`).
