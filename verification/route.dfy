/** The API's per-test composition: a flaky test gets a freshly seeded
    analysis, both passes run over it, and the result is projected into the
    response shape with path counts; every other test gets none. */
module Route {
  import opened Wrappers
  import opened Seqs
  import opened Strings
  import opened Types
  import opened LogLines
  import opened Patterns
  import opened Analysis
  import opened Extractor
  import opened Rules

  /** The analysis a flaky test starts from: nothing found yet, the minimum
      at infinity and the maximum at -1. */
  function SeedAnalysis(test: AggregatedTestResult): FlakyAnalysis {
    FlakyAnalysis(
      test.id, test.title, test.location,
      [],
      ErrorSummary(0, [], []),
      Timing(PosInfinity, -1, 0.0, None, None, false),
      [],
      RelevantAttachments([], [], []))
  }

  /** The attachment lists as the API returns them, each with its length. */
  datatype ApiAttachments = ApiAttachments(
    failedTraces: seq<string>,
    failedTracesCount: nat,
    failedScreenshots: seq<string>,
    failedScreenshotsCount: nat,
    failedVideos: seq<string>,
    failedVideosCount: nat)

  /** The analysis as the API returns it: without the identity fields, with
      the reason set as an array. */
  datatype ApiAnalysis = ApiAnalysis(
    potentialReasons: seq<string>,
    errorSummary: ErrorSummary,
    timing: Timing,
    consoleOutputHints: seq<string>,
    relevantAttachments: ApiAttachments)

  /** One record of the report with its analysis attached. */
  datatype ApiTestResult = ApiTestResult(
    id: string,
    title: string,
    location: string,
    finalStatus: TestStatus,
    isFlaky: bool,
    attempts: seq<RunAttempt>,
    analysis: Option<ApiAnalysis>)

  function Project(a: FlakyAnalysis): ApiAnalysis {
    var att := a.relevantAttachments;
    ApiAnalysis(
      a.potentialReasons,
      a.errorSummary,
      a.timing,
      a.consoleOutputHints,
      ApiAttachments(
        att.failedTraces, |att.failedTraces|,
        att.failedScreenshots, |att.failedScreenshots|,
        att.failedVideos, |att.failedVideos|))
  }

  /** Both passes over the seeded analysis. */
  function AnalyzeTest(test: AggregatedTestResult): FlakyAnalysis {
    var x := ExtractBaseFeatures(test, SeedAnalysis(test));
    ApplyDiagnosticRules(test, x.analysis, x.failedLogSets)
  }

  function AnalyzeSingleFlakyTest(test: AggregatedTestResult): (r: Option<ApiAnalysis>)
    ensures r.Some? <==> test.isFlaky
  {
    if !test.isFlaky then None else Some(Project(AnalyzeTest(test)))
  }

  function WithAnalysis(test: AggregatedTestResult): ApiTestResult {
    ApiTestResult(
      test.id, test.title, test.location, test.finalStatus, test.isFlaky, test.attempts,
      AnalyzeSingleFlakyTest(test))
  }

  /** The body of the GET handler after the report is read. */
  function AnalyzeReport(tests: seq<AggregatedTestResult>): (r: seq<ApiTestResult>)
    ensures |r| == |tests|
    ensures forall i :: 0 <= i < |tests| ==> r[i].id == tests[i].id && (r[i].analysis.Some? <==> tests[i].isFlaky)
  {
    Map(tests, WithAnalysis)
  }

  // ---------------------------------------------------------------------
  // The gate, the projection and the report

  /** Only a flaky test is analysed; its analysis carries the full
      analysis's lists and reasons, each count is its list's length, and
      the identity fields are gone. */
  lemma SingleFlakyTestProjection(test: AggregatedTestResult)
    ensures AnalyzeSingleFlakyTest(test).Some? <==> test.isFlaky
    ensures test.isFlaky ==>
      var r := AnalyzeSingleFlakyTest(test).value;
      var a := AnalyzeTest(test);
      && r.potentialReasons == a.potentialReasons
      && r.errorSummary == a.errorSummary
      && r.timing == a.timing
      && r.consoleOutputHints == a.consoleOutputHints
      && r.relevantAttachments.failedTraces == a.relevantAttachments.failedTraces
      && r.relevantAttachments.failedScreenshots == a.relevantAttachments.failedScreenshots
      && r.relevantAttachments.failedVideos == a.relevantAttachments.failedVideos
      && r.relevantAttachments.failedTracesCount == |r.relevantAttachments.failedTraces|
      && r.relevantAttachments.failedScreenshotsCount == |r.relevantAttachments.failedScreenshots|
      && r.relevantAttachments.failedVideosCount == |r.relevantAttachments.failedVideos|
  {
  }

  /** One result per record, in order; each keeps the record's fields and
      carries that record's analysis. */
  lemma ReportShape(tests: seq<AggregatedTestResult>)
    ensures |AnalyzeReport(tests)| == |tests|
    ensures forall i :: 0 <= i < |tests| ==>
      var r := AnalyzeReport(tests)[i];
      var t := tests[i];
      && r.id == t.id && r.title == t.title && r.location == t.location
      && r.finalStatus == t.finalStatus && r.isFlaky == t.isFlaky && r.attempts == t.attempts
      && r.analysis == AnalyzeSingleFlakyTest(t)
      && (r.analysis.Some? <==> t.isFlaky)
  {
  }

  // ---------------------------------------------------------------------
  // What the seeded pipeline computes

  /** The extraction over the seeded analysis. */
  function Extracted(test: AggregatedTestResult): FlakyAnalysis {
    ExtractBaseFeatures(test, SeedAnalysis(test)).analysis
  }

  /** Pass 2 changes only the reasons. */
  lemma RulesKeepFeatures(test: AggregatedTestResult)
    ensures OnlyAddsReasons(Extracted(test), AnalyzeTest(test))
  {
    var x := ExtractBaseFeatures(test, SeedAnalysis(test));
    DiagnosticRulesTags(test, x.analysis, x.failedLogSets, "");
  }

  /** From the running minimum and maximum seeded at infinity and -1:
      with at least one duration the minimum is finite and both are
      attained. */
  lemma SeededBounds(ats: seq<RunAttempt>, m: ExtInt, mx: int)
    requires |ats| > 0
    requires ExtLe(m, PosInfinity) && -1 <= mx
    requires forall i :: 0 <= i < |ats| ==> ExtLe(m, Finite(ats[i].duration))
    requires m == PosInfinity || exists i :: 0 <= i < |ats| && m == Finite(ats[i].duration)
    requires forall i :: 0 <= i < |ats| ==> ats[i].duration <= mx
    requires mx == -1 || exists i :: 0 <= i < |ats| && mx == ats[i].duration
    ensures && m.Finite?
      && m.value <= mx
      && (forall i :: 0 <= i < |ats| ==> m.value <= ats[i].duration <= mx)
      && (exists i :: 0 <= i < |ats| && m.value == ats[i].duration)
      && (exists i :: 0 <= i < |ats| && mx == ats[i].duration)
      && (|ats| == 1 ==> m == Finite(ats[0].duration) && mx == ats[0].duration)
  {
    assert ExtLe(m, Finite(ats[0].duration));
    assert ats[0].duration <= mx;
  }

  /** With at least one attempt the minimum is finite and at most the
      maximum, every duration lies between them, both are attained, and
      with exactly one attempt both equal its duration. */
  lemma SeedMinMax(test: AggregatedTestResult)
    requires |test.attempts| > 0
    ensures var t := AnalyzeTest(test).timing;
      var ats := test.attempts;
      && t.minDurationMs.Finite?
      && t.minDurationMs.value <= t.maxDurationMs
      && (forall i :: 0 <= i < |ats| ==> t.minDurationMs.value <= ats[i].duration <= t.maxDurationMs)
      && (exists i :: 0 <= i < |ats| && t.minDurationMs.value == ats[i].duration)
      && (exists i :: 0 <= i < |ats| && t.maxDurationMs == ats[i].duration)
      && (|ats| == 1 ==> t.minDurationMs == Finite(ats[0].duration) && t.maxDurationMs == ats[0].duration)
  {
    RulesKeepFeatures(test);
    ExtractedMinMax(test);
  }

  /** The same on the seeded extraction. */
  lemma ExtractedMinMax(test: AggregatedTestResult)
    requires |test.attempts| > 0
    ensures var t := Extracted(test).timing;
      var ats := test.attempts;
      && t.minDurationMs.Finite?
      && t.minDurationMs.value <= t.maxDurationMs
      && (forall i :: 0 <= i < |ats| ==> t.minDurationMs.value <= ats[i].duration <= t.maxDurationMs)
      && (exists i :: 0 <= i < |ats| && t.minDurationMs.value == ats[i].duration)
      && (exists i :: 0 <= i < |ats| && t.maxDurationMs == ats[i].duration)
      && (|ats| == 1 ==> t.minDurationMs == Finite(ats[0].duration) && t.maxDurationMs == ats[0].duration)
  {
    var t := Extracted(test).timing;
    ExtractMinMax(test, SeedAnalysis(test));
    SeededBounds(test.attempts, t.minDurationMs, t.maxDurationMs);
  }

  /** The averages are the exact means of all, the passed and the failed
      or timed-out durations; a group with no attempt keeps 0 or null. */
  lemma SeedAverages(test: AggregatedTestResult)
    ensures var t := AnalyzeTest(test).timing;
      var ats := test.attempts;
      var ps := Filter(ats, IsPassedAttempt);
      var fs := Filter(ats, IsFailedAttempt);
      && t.avgDurationMs == (if |ats| > 0 then Mean(Map(ats, DurationOf)) else 0.0)
      && t.passedAvgDurationMs == (if |ps| > 0 then Some(Mean(Map(ps, DurationOf))) else None)
      && t.failedAvgDurationMs == (if |fs| > 0 then Some(Mean(Map(fs, DurationOf))) else None)
  {
    RulesKeepFeatures(test);
    var a0 := SeedAnalysis(test);
    ExtractAverage(test, a0);
    ExtractPassedAverage(test, a0);
    ExtractFailedAverage(test, a0);
  }

  /** With an attempt, the average lies between the minimum and the
      maximum. */
  lemma SeedAverageWithin(test: AggregatedTestResult)
    requires |test.attempts| > 0
    ensures var t := AnalyzeTest(test).timing;
      t.minDurationMs.Finite? && t.minDurationMs.value as real <= t.avgDurationMs <= t.maxDurationMs as real
  {
    RulesKeepFeatures(test);
    ExtractedAverageWithin(test);
  }

  /** The same bound on the seeded extraction. */
  lemma ExtractedAverageWithin(test: AggregatedTestResult)
    requires |test.attempts| > 0
    ensures var t := Extracted(test).timing;
      t.minDurationMs.Finite? && t.minDurationMs.value as real <= t.avgDurationMs <= t.maxDurationMs as real
  {
    var a0 := SeedAnalysis(test);
    var t := Extracted(test).timing;
    ExtractMinMax(test, a0);
    ExtractAverage(test, a0);
    SeededBounds(test.attempts, t.minDurationMs, t.maxDurationMs);
    MeanWithin(test.attempts, t.minDurationMs.value, t.maxDurationMs);
  }

  /** The mean duration of attempts whose durations lie in `[lo, hi]` lies
      there too. */
  lemma MeanWithin(ats: seq<RunAttempt>, lo: int, hi: int)
    requires |ats| > 0
    requires forall i :: 0 <= i < |ats| ==> lo <= ats[i].duration <= hi
    ensures lo as real <= Mean(Map(ats, DurationOf)) <= hi as real
  {
    var ds := Map(ats, DurationOf);
    assert forall i :: 0 <= i < |ds| ==> lo <= ds[i] <= hi;
    MeanBounds(ds, lo, hi);
  }

  /** The variance flag is raised exactly when there is more than one
      attempt, a passed one and a failed or timed-out one, and the maximum
      exceeds twice the minimum. */
  lemma SeedVariance(test: AggregatedTestResult)
    ensures var t := AnalyzeTest(test).timing;
      var ats := test.attempts;
      t.durationVarianceHigh <==>
        && |ats| > 1
        && |Filter(ats, IsPassedAttempt)| > 0
        && |Filter(ats, IsFailedAttempt)| > 0
        && ExceedsTwice(t.maxDurationMs, t.minDurationMs)
  {
    RulesKeepFeatures(test);
    ExtractVariance(test, SeedAnalysis(test));
  }

  /** The count is the number of failed or timed-out attempts with an
      error; messages and types are their distinct keys and labels, in
      order of first occurrence, without duplicates, and no more of them
      than the count. */
  lemma SeedErrors(test: AggregatedTestResult)
    ensures var es := AnalyzeTest(test).errorSummary;
      var errored := Filter(test.attempts, IsErroredFailure);
      && es.count == |errored|
      && es.messages == Dedup(Map(errored, AttemptMessageKey))
      && es.types == Dedup(Map(errored, AttemptErrorType))
      && NoDup(es.messages) && NoDup(es.types)
      && |es.messages| <= es.count && |es.types| <= es.count
  {
    RulesKeepFeatures(test);
    var a0 := SeedAnalysis(test);
    ExtractErrorCount(test, a0);
    ExtractErrorMessages(test, a0);
    ExtractErrorTypes(test, a0);
  }

  /** The path lists are the classified paths of the failed or timed-out
      attempts, in order; every listed path is the non-empty path of an
      attachment of that kind on a failed or timed-out attempt. */
  lemma SeedAttachments(test: AggregatedTestResult)
    ensures var r := AnalyzeTest(test).relevantAttachments;
      var fs := Filter(test.attempts, IsFailedAttempt);
      && r.failedTraces == FlatMap(fs, TracePaths)
      && r.failedScreenshots == FlatMap(fs, ScreenshotPaths)
      && r.failedVideos == FlatMap(fs, VideoPaths)
  {
    RulesKeepFeatures(test);
    ExtractAttachments(test, SeedAnalysis(test));
  }

  /** A listed trace path belongs to a trace attachment of a failed or
      timed-out attempt. */
  lemma SeedTraceOrigin(test: AggregatedTestResult, p: string)
    requires p in AnalyzeTest(test).relevantAttachments.failedTraces
    ensures p != ""
    ensures exists i, j ::
      && 0 <= i < |test.attempts| && IsFailedAttempt(test.attempts[i])
      && 0 <= j < |test.attempts[i].attachments|
      && Classify(test.attempts[i].attachments[j]) == TraceFile
      && test.attempts[i].attachments[j].path == Some(p)
  {
    SeedAttachments(test);
    TraceOrigin(test.attempts, p);
  }

  /** A path among the failed attempts' trace paths comes from a trace
      attachment of one of them. */
  lemma TraceOrigin(ats: seq<RunAttempt>, p: string)
    requires p in FlatMap(Filter(ats, IsFailedAttempt), TracePaths)
    ensures p != ""
    ensures exists i, j ::
      && 0 <= i < |ats| && IsFailedAttempt(ats[i])
      && 0 <= j < |ats[i].attachments|
      && Classify(ats[i].attachments[j]) == TraceFile
      && ats[i].attachments[j].path == Some(p)
  {
    var fs := Filter(ats, IsFailedAttempt);
    FlatMapMember(fs, TracePaths, p);
    var k :| 0 <= k < |fs| && p in TracePaths(fs[k]);
    ClassifiedPathsFrom(fs[k].attachments, TraceFile, p);
    assert fs[k] in fs;
    var i :| 0 <= i < |ats| && ats[i] == fs[k];
  }

  /** The console hint list holds the hint exactly when some failed or
      timed-out attempt's console output matches the keyword pattern, and
      nothing else. */
  lemma SeedHints(test: AggregatedTestResult)
    ensures var h := AnalyzeTest(test).consoleOutputHints;
      && h == (if exists i :: 0 <= i < |test.attempts| && IsConsoleFailure(test.attempts[i])
               then [ConsoleHint] else [])
      && |h| <= 1
  {
    RulesKeepFeatures(test);
    ExtractHints(test, SeedAnalysis(test));
  }

  /** The console hint is listed exactly when one stdout or stderr chunk
      of a failed or timed-out attempt matches the keyword pattern on its
      own. */
  lemma SeedHintsByChunk(test: AggregatedTestResult)
    ensures var ats := test.attempts;
      AnalyzeTest(test).consoleOutputHints == [ConsoleHint] <==>
        exists i, k :: 0 <= i < |ats| && IsFailedAttempt(ats[i])
          && 0 <= k < |Chunks(ats[i])| && ConsoleKeyword(Chunks(ats[i])[k])
  {
    SeedHints(test);
    var ats := test.attempts;
    forall i | 0 <= i < |ats|
      ensures IsConsoleFailure(ats[i]) <==>
        IsFailedAttempt(ats[i]) && exists k :: 0 <= k < |Chunks(ats[i])| && ConsoleKeyword(Chunks(ats[i])[k])
    {
      ConsoleKeywordJoin(Chunks(ats[i]));
    }
  }

  /** The reasons carry no duplicate, and a tag is present exactly when a
      rule group concludes it from the extracted features. */
  lemma SeedReasons(test: AggregatedTestResult, t: string)
    ensures var x := ExtractBaseFeatures(test, SeedAnalysis(test));
      && NoDup(AnalyzeTest(test).potentialReasons)
      && (t in AnalyzeTest(test).potentialReasons <==>
            DiagnosticConclusions(test, x.analysis, x.failedLogSets, t))
  {
    var x := ExtractBaseFeatures(test, SeedAnalysis(test));
    ExtractKeeps(test, SeedAnalysis(test));
    DiagnosticRulesTags(test, x.analysis, x.failedLogSets, t);
  }

  // ---------------------------------------------------------------------
  // The base reasons, stated against the attempts

  /** A base tag is among the reasons exactly when its base heuristic fires
      on the extracted features. */
  lemma SeedBaseTag(test: AggregatedTestResult, t: string)
    requires IsBaseTag(t)
    ensures t in AnalyzeTest(test).potentialReasons <==> BaseConclusions(Extracted(test), t)
  {
    var x := ExtractBaseFeatures(test, SeedAnalysis(test));
    SeedReasons(test, t);
    BaseTagsOnlyFromBase(test, x.analysis, x.failedLogSets, t);
  }

  /** Within bounds that both occur among the durations, the maximum
      exceeds twice the minimum exactly when one duration exceeds twice
      another. */
  lemma SpreadWithinBounds(ats: seq<RunAttempt>, lo: int, hi: int)
    requires forall i :: 0 <= i < |ats| ==> lo <= ats[i].duration <= hi
    requires exists i :: 0 <= i < |ats| && lo == ats[i].duration
    requires exists i :: 0 <= i < |ats| && hi == ats[i].duration
    ensures hi > 2 * lo <==>
      exists i, j :: 0 <= i < |ats| && 0 <= j < |ats| && ats[i].duration > 2 * ats[j].duration
  {
    var a :| 0 <= a < |ats| && lo == ats[a].duration;
    var b :| 0 <= b < |ats| && hi == ats[b].duration;
    if hi > 2 * lo {
      assert ats[b].duration > 2 * ats[a].duration;
    }
  }

  /** From the running minimum and maximum seeded at infinity and -1, with
      more than one duration: the maximum exceeds twice the minimum exactly
      when one duration exceeds twice another. */
  lemma SeededSpread(ats: seq<RunAttempt>, m: ExtInt, mx: int)
    requires |ats| > 1
    requires ExtLe(m, PosInfinity) && -1 <= mx
    requires forall i :: 0 <= i < |ats| ==> ExtLe(m, Finite(ats[i].duration))
    requires m == PosInfinity || exists i :: 0 <= i < |ats| && m == Finite(ats[i].duration)
    requires forall i :: 0 <= i < |ats| ==> ats[i].duration <= mx
    requires mx == -1 || exists i :: 0 <= i < |ats| && mx == ats[i].duration
    ensures ExceedsTwice(mx, m) <==>
      exists i, j :: 0 <= i < |ats| && 0 <= j < |ats| && ats[i].duration > 2 * ats[j].duration
  {
    SeededBounds(ats, m, mx);
    SpreadWithinBounds(ats, m.value, mx);
  }

  /** In the seeded extraction with more than one attempt, the maximum
      exceeds twice the minimum exactly when some attempt took more than
      twice as long as another. */
  lemma SeedSpread(test: AggregatedTestResult)
    ensures var ats := test.attempts;
      var t := Extracted(test).timing;
      |ats| > 1 ==>
        (ExceedsTwice(t.maxDurationMs, t.minDurationMs) <==>
          exists i, j :: 0 <= i < |ats| && 0 <= j < |ats| && ats[i].duration > 2 * ats[j].duration)
  {
    if |test.attempts| > 1 {
      var t := Extracted(test).timing;
      ExtractMinMax(test, SeedAnalysis(test));
      SeededSpread(test.attempts, t.minDurationMs, t.maxDurationMs);
    }
  }

  /** The timing tag is added exactly when there is more than one attempt,
      a passed one and a failed or timed-out one, and some attempt took
      more than twice as long as another. */
  lemma SeedTimingReason(test: AggregatedTestResult)
    ensures var ats := test.attempts;
      TimingTag in AnalyzeTest(test).potentialReasons <==>
        && |ats| > 1
        && (exists i :: 0 <= i < |ats| && IsPassedAttempt(ats[i]))
        && (exists i :: 0 <= i < |ats| && IsFailedAttempt(ats[i]))
        && exists i, j :: 0 <= i < |ats| && 0 <= j < |ats| && ats[i].duration > 2 * ats[j].duration
  {
    var ats := test.attempts;
    SeedBaseTag(test, TimingTag);
    ExtractVariance(test, SeedAnalysis(test));
    FilterNonEmpty(ats, IsPassedAttempt);
    FilterNonEmpty(ats, IsFailedAttempt);
    SeedSpread(test);
  }

  /** Some extracted error label contains "TimeoutError" exactly when the
      label of some failed or timed-out attempt's error does. */
  lemma SeedTimeoutType(test: AggregatedTestResult)
    ensures var ats := test.attempts;
      HasTimeoutType(Extracted(test)) <==>
        exists i :: 0 <= i < |ats| && IsErroredFailure(ats[i]) && Contains(AttemptErrorType(ats[i]), "TimeoutError")
  {
    ExtractErrorTypes(test, SeedAnalysis(test));
    SomeDistinctImage(test.attempts, IsErroredFailure, AttemptErrorType, t => Contains(t, "TimeoutError"));
  }

  /** The timeout tag is added exactly when the label of some failed or
      timed-out attempt's error contains "TimeoutError"; the trace-review
      tag for timeouts exactly when both the timeout and the trace tags
      are. */
  lemma SeedTimeoutReasons(test: AggregatedTestResult)
    ensures var reasons := AnalyzeTest(test).potentialReasons;
      var ats := test.attempts;
      && (TimeoutTag in reasons <==>
            exists i :: 0 <= i < |ats| && IsErroredFailure(ats[i]) && Contains(AttemptErrorType(ats[i]), "TimeoutError"))
      && (TimeoutTraceTag in reasons <==> TimeoutTag in reasons && TraceTag in reasons)
  {
    SeedBaseTag(test, TimeoutTag);
    SeedBaseTag(test, TimeoutTraceTag);
    SeedBaseTag(test, TraceTag);
    SeedTimeoutType(test);
  }

  /** Some extracted message key matches `p` exactly when the key of some
      failed or timed-out attempt's error does. */
  lemma SeedMessagePattern(test: AggregatedTestResult, p: string -> bool)
    ensures var ats := test.attempts;
      SomeMessage(Extracted(test), p) <==>
        exists i :: 0 <= i < |ats| && IsErroredFailure(ats[i]) && p(AttemptMessageKey(ats[i]))
  {
    ExtractErrorMessages(test, SeedAnalysis(test));
    SomeDistinctImage(test.attempts, IsErroredFailure, AttemptMessageKey, p);
  }

  /** Each message-pattern tag is added exactly when the message key of
      some failed or timed-out attempt's error matches its pattern. */
  lemma SeedMessageReasons(test: AggregatedTestResult)
    ensures var reasons := AnalyzeTest(test).potentialReasons;
      var ats := test.attempts;
      && (ElementStateTag in reasons <==>
            exists i :: 0 <= i < |ats| && IsErroredFailure(ats[i]) && ElementStateProblem(AttemptMessageKey(ats[i])))
      && (SelectorTag in reasons <==>
            exists i :: 0 <= i < |ats| && IsErroredFailure(ats[i]) && SelectorProblem(AttemptMessageKey(ats[i])))
      && (NavigationTag in reasons <==>
            exists i :: 0 <= i < |ats| && IsErroredFailure(ats[i]) && NavigationProblem(AttemptMessageKey(ats[i])))
  {
    SeedBaseTag(test, ElementStateTag);
    SeedBaseTag(test, SelectorTag);
    SeedBaseTag(test, NavigationTag);
    SeedMessagePattern(test, ElementStateProblem);
    SeedMessagePattern(test, SelectorProblem);
    SeedMessagePattern(test, NavigationProblem);
  }

  /** The console tag is added exactly when one stdout or stderr chunk of a
      failed or timed-out attempt matches the keyword pattern. */
  lemma SeedConsoleReason(test: AggregatedTestResult)
    ensures var ats := test.attempts;
      ConsoleTag in AnalyzeTest(test).potentialReasons <==>
        exists i, k :: 0 <= i < |ats| && IsFailedAttempt(ats[i])
          && 0 <= k < |Chunks(ats[i])| && ConsoleKeyword(Chunks(ats[i])[k])
  {
    SeedBaseTag(test, ConsoleTag);
    RulesKeepFeatures(test);
    SeedHints(test);
    SeedHintsByChunk(test);
  }

  /** Attachments of a failed attempt that land in the trace, screenshot
      and video lists: a trace needs the name "trace", the others the
      content-type prefix, and every one a non-empty path; an earlier
      list takes precedence. */
  predicate IsTraceAttachment(att: Attachment) {
    att.name == "trace" && Truthy(att.path)
  }

  predicate IsScreenshotAttachment(att: Attachment) {
    att.name != "trace" && StartsWith(att.contentType, "image/") && Truthy(att.path)
  }

  predicate IsVideoAttachment(att: Attachment) {
    && att.name != "trace" && !StartsWith(att.contentType, "image/")
    && StartsWith(att.contentType, "video/") && Truthy(att.path)
  }

  /** Some failed or timed-out attempt carries an attachment satisfying
      `p`. */
  predicate FailedAttachment(ats: seq<RunAttempt>, p: Attachment -> bool) {
    exists i, j :: 0 <= i < |ats| && IsFailedAttempt(ats[i])
      && 0 <= j < |ats[i].attachments| && p(ats[i].attachments[j])
  }

  /** The failed attempts' paths of one kind are non-empty exactly when a
      failed attempt has an attachment of that kind. */
  lemma FailedPathsNonEmpty(ats: seq<RunAttempt>, kind: AttachmentKind, paths: RunAttempt -> seq<string>, p: Attachment -> bool)
    requires kind != Ignored
    requires forall a :: paths(a) == ClassifiedPaths(a.attachments, kind)
    requires forall att :: p(att) <==> Classify(att) == kind
    ensures |FlatMap(Filter(ats, IsFailedAttempt), paths)| > 0 <==> FailedAttachment(ats, p)
  {
    FilteredFlatMapNonEmpty(ats, IsFailedAttempt, paths);
    forall i | 0 <= i < |ats|
      ensures |paths(ats[i])| > 0 <==> exists j :: 0 <= j < |ats[i].attachments| && p(ats[i].attachments[j])
    {
      ClassifiedNonEmpty(ats[i].attachments, kind);
    }
  }

  /** The trace, screenshot and video tags are each added exactly when a
      failed or timed-out attempt carries an attachment that lands in the
      matching list. */
  lemma SeedAttachmentReasons(test: AggregatedTestResult)
    ensures var reasons := AnalyzeTest(test).potentialReasons;
      var ats := test.attempts;
      && (TraceTag in reasons <==> FailedAttachment(ats, IsTraceAttachment))
      && (ScreenshotTag in reasons <==> FailedAttachment(ats, IsScreenshotAttachment))
      && (VideoTag in reasons <==> FailedAttachment(ats, IsVideoAttachment))
  {
    var ats := test.attempts;
    SeedBaseTag(test, TraceTag);
    SeedBaseTag(test, ScreenshotTag);
    SeedBaseTag(test, VideoTag);
    ExtractAttachments(test, SeedAnalysis(test));
    forall att: Attachment
      ensures IsTraceAttachment(att) <==> Classify(att) == TraceFile
      ensures IsScreenshotAttachment(att) <==> Classify(att) == Screenshot
      ensures IsVideoAttachment(att) <==> Classify(att) == Video
    {
      ClassifyPrecedence(att);
    }
    FailedPathsNonEmpty(ats, TraceFile, TracePaths, IsTraceAttachment);
    FailedPathsNonEmpty(ats, Screenshot, ScreenshotPaths, IsScreenshotAttachment);
    FailedPathsNonEmpty(ats, Video, VideoPaths, IsVideoAttachment);
  }
}
