/** Pass 2: the diagnostic rules. Each rule may add reason tags to the
    analysis and changes nothing else. */
module Rules {
  import opened Wrappers
  import opened Seqs
  import opened Strings
  import opened Types
  import opened LogLines
  import opened Patterns
  import opened Analysis
  import opened Similarity

  const TimingTag: string := "Inconsistent Performance / Timing Sensitivity"
  const TimeoutTag: string := "Potential Timeout Issues (Waits/Performance)"
  const TimeoutTraceTag: string := "Timeout occurred: Review network/DOM activity in Playwright Trace"
  const ElementStateTag: string := "Element State/Visibility/Availability Issues"
  const SelectorTag: string := "Selector Issues or Dynamic DOM Structure"
  const NavigationTag: string := "Navigation Timing or Network Reliability Issues"
  const ConsoleTag: string := "Check Application Logs (Console Output in Failures)"
  const TraceTag: string := "Review Playwright Trace for Failed Attempts"
  const ScreenshotTag: string := "Review Screenshots for Failed Attempts"
  const VideoTag: string := "Review Video Recordings for Failed Attempts"
  const LogDifferenceTag: string := "Significant Log Differences between Passed/Failed Runs"
  const ConsistentErrorsTag: string := "Consistent Error Message Pattern in Failures"
  const SomewhatDiverseErrorsTag: string := "Somewhat Diverse Error Messages (Multiple Failure Modes Likely)"
  const HighlyDiverseErrorsTag: string := "Highly Diverse Error Messages (Chaotic Failures)"
  const ConsistentLogsTag: string := "Consistent Log Pattern in Failures"
  const DiverseLogsTag: string := "Diverse Log Pattern in Failures"

  const DiffRatioThreshold: real := 0.3
  const MinFailedOnlyLines: nat := 2
  const DiversityFactor: real := 0.7
  const ConsistentSimilarity: real := 0.7
  const DiverseSimilarity: real := 0.3

  /** One rule of a group: its tag and whether its condition holds. */
  datatype Rule = Rule(fires: bool, tag: string)

  /** Applies the rules of a group in order, each adding its tag when it
      fires. */
  function ApplyRules(a: FlakyAnalysis, rules: seq<Rule>): FlakyAnalysis
    decreases |rules|
  {
    if |rules| == 0 then a
    else
      var last := rules[|rules| - 1];
      WithReasonIf(ApplyRules(a, rules[..|rules| - 1]), last.fires, last.tag)
  }

  /** Some rule fires with tag `t`. */
  predicate Concludes(rules: seq<Rule>, t: string) {
    exists i :: 0 <= i < |rules| && rules[i].fires && rules[i].tag == t
  }

  /** A group of rules only adds reasons, and adds exactly the tags of the
      rules that fire. */
  lemma {:induction false} ApplyRulesSpec(a: FlakyAnalysis, rules: seq<Rule>, t: string)
    ensures OnlyAddsReasons(a, ApplyRules(a, rules))
    ensures t in ApplyRules(a, rules).potentialReasons <==> t in a.potentialReasons || Concludes(rules, t)
    decreases |rules|
  {
    if |rules| > 0 {
      var init := rules[..|rules| - 1];
      ApplyRulesSpec(a, init, t);
      if Concludes(init, t) {
        var i :| 0 <= i < |init| && init[i].fires && init[i].tag == t;
        assert rules[i] == init[i];
      }
      if Concludes(rules, t) {
        var i :| 0 <= i < |rules| && rules[i].fires && rules[i].tag == t;
        if i < |init| {
          assert init[i] == rules[i];
        }
      }
    }
  }

  // ---------------------------------------------------------------------
  // Base heuristics

  /** Some error type contains "TimeoutError" (a substring test, so a
      label such as "MyTimeoutError" also counts). */
  predicate HasTimeoutType(a: FlakyAnalysis) {
    exists t | t in a.errorSummary.types :: Contains(t, "TimeoutError")
  }

  predicate SomeMessage(a: FlakyAnalysis, p: string -> bool) {
    exists m | m in a.errorSummary.messages :: p(m)
  }

  /** The ten base heuristics, in order. */
  function BaseRules(a: FlakyAnalysis): seq<Rule> {
    var att := a.relevantAttachments;
    var timeout := HasTimeoutType(a);
    [ Rule(a.timing.durationVarianceHigh, TimingTag),
      Rule(timeout, TimeoutTag),
      Rule(timeout && |att.failedTraces| > 0, TimeoutTraceTag),
      Rule(SomeMessage(a, ElementStateProblem), ElementStateTag),
      Rule(SomeMessage(a, SelectorProblem), SelectorTag),
      Rule(SomeMessage(a, NavigationProblem), NavigationTag),
      Rule(|a.consoleOutputHints| > 0, ConsoleTag),
      Rule(|att.failedTraces| > 0, TraceTag),
      Rule(|att.failedScreenshots| > 0, ScreenshotTag),
      Rule(|att.failedVideos| > 0, VideoTag) ]
  }

  function ApplyBaseHeuristics(a: FlakyAnalysis): (r: FlakyAnalysis)
    ensures OnlyAddsReasons(a, r)
  {
    ApplyRulesSpec(a, BaseRules(a), "");
    ApplyRules(a, BaseRules(a))
  }

  /** What the base heuristics conclude: the reasons they add, each with the
      condition that adds it. */
  predicate BaseConclusions(a: FlakyAnalysis, t: string) {
    var att := a.relevantAttachments;
    || (t == TimingTag && a.timing.durationVarianceHigh)
    || (t == TimeoutTag && HasTimeoutType(a))
    || (t == TimeoutTraceTag && HasTimeoutType(a) && |att.failedTraces| > 0)
    || (t == ElementStateTag && SomeMessage(a, ElementStateProblem))
    || (t == SelectorTag && SomeMessage(a, SelectorProblem))
    || (t == NavigationTag && SomeMessage(a, NavigationProblem))
    || (t == ConsoleTag && |a.consoleOutputHints| > 0)
    || (t == TraceTag && |att.failedTraces| > 0)
    || (t == ScreenshotTag && |att.failedScreenshots| > 0)
    || (t == VideoTag && |att.failedVideos| > 0)
  }

  /** Every tag a base rule concludes is one of the base conclusions. */
  lemma BaseRulesSound(a: FlakyAnalysis, t: string)
    requires Concludes(BaseRules(a), t)
    ensures BaseConclusions(a, t)
  {
    var rules := BaseRules(a);
    var i :| 0 <= i < |rules| && rules[i].fires && rules[i].tag == t;
    if i < 5 {
      assert i in {0, 1, 2, 3, 4};
    } else {
      assert i in {5, 6, 7, 8, 9};
    }
  }

  /** Every base conclusion comes from a base rule that fires. */
  lemma BaseRulesComplete(a: FlakyAnalysis, t: string)
    requires BaseConclusions(a, t)
    ensures Concludes(BaseRules(a), t)
  {
    var rules := BaseRules(a);
    var att := a.relevantAttachments;
    if t == TimingTag && a.timing.durationVarianceHigh {
      assert rules[0].fires && rules[0].tag == t;
    } else if t == TimeoutTag && HasTimeoutType(a) {
      assert rules[1].fires && rules[1].tag == t;
    } else if t == TimeoutTraceTag && HasTimeoutType(a) && |att.failedTraces| > 0 {
      assert rules[2].fires && rules[2].tag == t;
    } else if t == ElementStateTag && SomeMessage(a, ElementStateProblem) {
      assert rules[3].fires && rules[3].tag == t;
    } else if t == SelectorTag && SomeMessage(a, SelectorProblem) {
      assert rules[4].fires && rules[4].tag == t;
    } else if t == NavigationTag && SomeMessage(a, NavigationProblem) {
      assert rules[5].fires && rules[5].tag == t;
    } else if t == ConsoleTag && |a.consoleOutputHints| > 0 {
      assert rules[6].fires && rules[6].tag == t;
    } else if t == TraceTag && |att.failedTraces| > 0 {
      assert rules[7].fires && rules[7].tag == t;
    } else if t == ScreenshotTag && |att.failedScreenshots| > 0 {
      assert rules[8].fires && rules[8].tag == t;
    } else {
      assert rules[9].fires && rules[9].tag == t;
    }
  }

  /** A tag is concluded by the base rules exactly when it is a base
      conclusion. */
  lemma BaseRulesConclude(a: FlakyAnalysis, t: string)
    ensures Concludes(BaseRules(a), t) <==> BaseConclusions(a, t)
  {
    if Concludes(BaseRules(a), t) {
      BaseRulesSound(a, t);
    }
    if BaseConclusions(a, t) {
      BaseRulesComplete(a, t);
    }
  }

  /** The base heuristics only add reasons, and a tag is present afterwards
      exactly when it was before or its rule fires. */
  lemma BaseHeuristicsTags(a: FlakyAnalysis, t: string)
    ensures OnlyAddsReasons(a, ApplyBaseHeuristics(a))
    ensures t in ApplyBaseHeuristics(a).potentialReasons <==> t in a.potentialReasons || BaseConclusions(a, t)
  {
    ApplyRulesSpec(a, BaseRules(a), t);
    BaseRulesConclude(a, t);
  }

  /** The ten tags of the base heuristics. */
  predicate IsBaseTag(t: string) {
    || t == TimingTag || t == TimeoutTag || t == TimeoutTraceTag
    || t == ElementStateTag || t == SelectorTag || t == NavigationTag
    || t == ConsoleTag || t == TraceTag || t == ScreenshotTag || t == VideoTag
  }

  /** No rule group after the base heuristics adds a base tag, so pass 2
      concludes a base tag exactly when a base heuristic does. */
  lemma BaseTagsOnlyFromBase(test: AggregatedTestResult, a: FlakyAnalysis, failedLogSets: seq<set<string>>, t: string)
    requires IsBaseTag(t)
    ensures DiagnosticConclusions(test, a, failedLogSets, t) <==> BaseConclusions(a, t)
  {
    assert t != LogDifferenceTag;
    assert !IsErrorBandTag(t);
    assert t != ConsistentLogsTag && t != DiverseLogsTag;
  }

  // ---------------------------------------------------------------------
  // Passed versus failed log lines

  /** The failed-only lines make up more than 30% of the failed lines and
      there are more than two of them. */
  predicate SignificantDifference(passedLines: set<string>, failedLines: set<string>) {
    var u := failedLines - passedLines;
    && |failedLines| > 0
    && (|u| as real) / (|failedLines| as real) > DiffRatioThreshold
    && |u| > MinFailedOnlyLines
  }

  /** `u / f > 0.3` in integers. */
  lemma RatioAboveThreshold(u: nat, f: nat)
    requires f > 0
    ensures (u as real) / (f as real) > DiffRatioThreshold <==> 10 * u > 3 * f
  {
    var uu := u as real;
    var ff := f as real;
    var ratio := uu / ff;
    assert ratio * ff == uu;
    if ratio > 0.3 {
      assert (ratio - 0.3) * ff > 0.0;
      assert uu > 0.3 * ff;
      assert (10 * u) as real > (3 * f) as real;
    } else {
      assert (0.3 - ratio) * ff >= 0.0;
      assert uu <= 0.3 * ff;
      assert (10 * u) as real <= (3 * f) as real;
    }
  }

  /** The ratio test in integers: `10·|F∖P| > 3·|F|`. */
  lemma SignificantDifferenceInIntegers(passedLines: set<string>, failedLines: set<string>)
    ensures var u := failedLines - passedLines;
      SignificantDifference(passedLines, failedLines) <==>
        |failedLines| > 0 && 10 * |u| > 3 * |failedLines| && |u| > 2
  {
    if |failedLines| > 0 {
      RatioAboveThreshold(|failedLines - passedLines|, |failedLines|);
    }
  }

  function AnalyzeLogDifferences(passed: seq<RunAttempt>, failed: seq<RunAttempt>, a: FlakyAnalysis): (r: FlakyAnalysis)
    ensures OnlyAddsReasons(a, r)
  {
    if |passed| == 0 || |failed| == 0 then a
    else
      var passedLines := UniqueLogLines(passed);
      var failedLines := UniqueLogLines(failed);
      if |failedLines| == 0 then a
      else WithReasonIf(a, SignificantDifference(passedLines, failedLines), LogDifferenceTag)
  }

  /** The tag is added exactly when both groups are non-empty and, counting
      in integers, `10·|F∖P| > 3·|F|` and `|F∖P| > 2` for the failed lines
      `F` and passed lines `P`; no other tag is added. */
  predicate DifferenceConcludes(passed: seq<RunAttempt>, failed: seq<RunAttempt>, t: string) {
    var f := UniqueLogLines(failed);
    var u := f - UniqueLogLines(passed);
    && t == LogDifferenceTag
    && |passed| > 0 && |failed| > 0
    && 10 * |u| > 3 * |f|
    && |u| > 2
  }

  lemma LogDifferencesTag(passed: seq<RunAttempt>, failed: seq<RunAttempt>, a: FlakyAnalysis, t: string)
    ensures var r := AnalyzeLogDifferences(passed, failed, a);
      t in r.potentialReasons <==> t in a.potentialReasons || DifferenceConcludes(passed, failed, t)
  {
    SignificantDifferenceInIntegers(UniqueLogLines(passed), UniqueLogLines(failed));
  }

  // ---------------------------------------------------------------------
  // Error-message diversity

  /** The band tag, if any, for `u` distinct messages among `f` failed
      attempts. */
  function ErrorBand(u: nat, f: nat): Option<string> {
    if u == 1 && f > 1 then Some(ConsistentErrorsTag)
    else if u > 1 && (u as real) < (f as real) * DiversityFactor then Some(SomewhatDiverseErrorsTag)
    else if (u as real) >= (f as real) * DiversityFactor && u > 0 then Some(HighlyDiverseErrorsTag)
    else None
  }

  function AnalyzeErrorConsistency(failed: seq<RunAttempt>, a: FlakyAnalysis): (r: FlakyAnalysis)
    ensures OnlyAddsReasons(a, r)
  {
    if |failed| <= 1 then a
    else
      var band := ErrorBand(|a.errorSummary.messages|, |failed|);
      if band.Some? then WithReason(a, band.value) else a
  }

  /** Some diversity tag. */
  predicate IsErrorBandTag(t: string) {
    t == ConsistentErrorsTag || t == SomewhatDiverseErrorsTag || t == HighlyDiverseErrorsTag
  }

  /** In integers, with `u` distinct messages and `f` failed attempts: no
      tag when `f <= 1` or `u == 0`; otherwise "Consistent" when `u == 1`,
      "Somewhat Diverse" when `1 < u` and `10·u < 7·f`, and "Highly Diverse"
      when `1 < u` and `10·u >= 7·f`. */
  predicate BandConcludes(u: nat, f: nat, t: string) {
    && f > 1 && u > 0
    && IsErrorBandTag(t)
    && (t == ConsistentErrorsTag <==> u == 1)
    && (t == SomewhatDiverseErrorsTag <==> 1 < u && 10 * u < 7 * f)
    && (t == HighlyDiverseErrorsTag <==> 1 < u && 10 * u >= 7 * f)
  }

  /** A band tag is added exactly when its band holds, at most one tag is
      added, and no other tag. */
  lemma ErrorConsistencyBands(failed: seq<RunAttempt>, a: FlakyAnalysis, t: string)
    ensures var r := AnalyzeErrorConsistency(failed, a);
      && (t in r.potentialReasons <==>
            t in a.potentialReasons || BandConcludes(|a.errorSummary.messages|, |failed|, t))
      && |r.potentialReasons| <= |a.potentialReasons| + 1
  {
    var u := |a.errorSummary.messages|;
    var f := |failed|;
    assert (u as real) < (f as real) * 0.7 <==> 10 * u < 7 * f;
    assert u == 1 && f > 1 ==> 10 * u < 7 * f;
  }

  // ---------------------------------------------------------------------
  // Log similarity among failed attempts

  predicate SomeNonEmpty(sets: seq<set<string>>) {
    exists i :: 0 <= i < |sets| && |sets[i]| > 0
  }

  function AnalyzeLogConsistencyInFailures(sets: seq<set<string>>, a: FlakyAnalysis): (r: FlakyAnalysis)
    ensures OnlyAddsReasons(a, r)
  {
    if |sets| <= 1 then a
    else
      var avg := AverageSimilarity(sets);
      if avg > ConsistentSimilarity then WithReason(a, ConsistentLogsTag)
      else WithReasonIf(a, avg < DiverseSimilarity && SomeNonEmpty(sets), DiverseLogsTag)
  }

  /** With fewer than two sets nothing is added; otherwise "Consistent" when
      the average similarity exceeds 0.7 and "Diverse" when it is below 0.3
      and some set is non-empty; at most one of the two, and no other tag. */
  predicate PatternConcludes(sets: seq<set<string>>, t: string) {
    var avg := AverageSimilarity(sets);
    || (|sets| > 1 && t == ConsistentLogsTag && avg > 0.7)
    || (|sets| > 1 && t == DiverseLogsTag && avg < 0.3 && SomeNonEmpty(sets))
  }

  lemma LogConsistencyTags(sets: seq<set<string>>, a: FlakyAnalysis, t: string)
    ensures var r := AnalyzeLogConsistencyInFailures(sets, a);
      && (t in r.potentialReasons <==> t in a.potentialReasons || PatternConcludes(sets, t))
      && |r.potentialReasons| <= |a.potentialReasons| + 1
  {
  }

  /** Equal log sets in every failed attempt mark the failures consistent. */
  lemma EqualLogsConsistent(sets: seq<set<string>>, a: FlakyAnalysis)
    requires |sets| >= 2 && AllEqual(sets)
    ensures ConsistentLogsTag in AnalyzeLogConsistencyInFailures(sets, a).potentialReasons
  {
    AverageOne(sets);
  }

  /** Pairwise disjoint non-empty log sets mark the failures diverse. */
  lemma DisjointLogsDiverse(sets: seq<set<string>>, a: FlakyAnalysis)
    requires |sets| >= 2 && Scattered(sets)
    ensures DiverseLogsTag in AnalyzeLogConsistencyInFailures(sets, a).potentialReasons
  {
    AverageZero(sets);
    assert |sets[0]| > 0;
  }

  // ---------------------------------------------------------------------
  // All rules

  /** Pass 2 over one test, given the per-failed-attempt log sets of
      pass 1. */
  function ApplyDiagnosticRules(test: AggregatedTestResult, a: FlakyAnalysis, failedLogSets: seq<set<string>>): (r: FlakyAnalysis)
    ensures OnlyAddsReasons(a, r)
  {
    var a1 := ApplyBaseHeuristics(a);
    var passed := Filter(test.attempts, IsPassedAttempt);
    var failed := Filter(test.attempts, IsFailedAttempt);
    var a2 := AnalyzeLogDifferences(passed, failed, a1);
    var a3 := AnalyzeErrorConsistency(failed, a2);
    AnalyzeLogConsistencyInFailures(failedLogSets, a3)
  }

  /** Everything pass 2 may conclude about one test. */
  predicate DiagnosticConclusions(test: AggregatedTestResult, a: FlakyAnalysis, failedLogSets: seq<set<string>>, t: string) {
    var passed := Filter(test.attempts, IsPassedAttempt);
    var failed := Filter(test.attempts, IsFailedAttempt);
    || BaseConclusions(a, t)
    || DifferenceConcludes(passed, failed, t)
    || BandConcludes(|a.errorSummary.messages|, |failed|, t)
    || PatternConcludes(failedLogSets, t)
  }

  /** Pass 2 only adds reasons, and a tag is present afterwards exactly when
      it was before or one of the four rule groups concludes it. */
  lemma DiagnosticRulesTags(test: AggregatedTestResult, a: FlakyAnalysis, failedLogSets: seq<set<string>>, t: string)
    ensures OnlyAddsReasons(a, ApplyDiagnosticRules(test, a, failedLogSets))
    ensures t in ApplyDiagnosticRules(test, a, failedLogSets).potentialReasons <==>
      t in a.potentialReasons || DiagnosticConclusions(test, a, failedLogSets, t)
  {
    var passed := Filter(test.attempts, IsPassedAttempt);
    var failed := Filter(test.attempts, IsFailedAttempt);
    var a1 := ApplyBaseHeuristics(a);
    BaseHeuristicsTags(a, t);
    var a2 := AnalyzeLogDifferences(passed, failed, a1);
    LogDifferencesTag(passed, failed, a1, t);
    var a3 := AnalyzeErrorConsistency(failed, a2);
    ErrorConsistencyBands(failed, a2, t);
    assert a2.errorSummary == a.errorSummary;
    LogConsistencyTags(failedLogSets, a3, t);
  }

  /** A test with at most one failed or timed-out attempt and at most one
      log set gets no diversity or log-pattern tag it did not already have. */
  lemma SingleFailureNoPatternTags(test: AggregatedTestResult, a: FlakyAnalysis, failedLogSets: seq<set<string>>, t: string)
    requires |Filter(test.attempts, IsFailedAttempt)| <= 1 && |failedLogSets| <= 1
    requires IsErrorBandTag(t) || t == ConsistentLogsTag || t == DiverseLogsTag
    requires t !in a.potentialReasons
    ensures t !in ApplyDiagnosticRules(test, a, failedLogSets).potentialReasons
  {
    DiagnosticRulesTags(test, a, failedLogSets, t);
    NoBaseConclusion(a, t);
    assert !PatternConcludes(failedLogSets, t);
    assert !BandConcludes(|a.errorSummary.messages|, |Filter(test.attempts, IsFailedAttempt)|, t);
  }

  /** The diversity and log-pattern tags are none of the base tags. */
  lemma NoBaseConclusion(a: FlakyAnalysis, t: string)
    requires IsErrorBandTag(t) || t == ConsistentLogsTag || t == DiverseLogsTag
    ensures !BaseConclusions(a, t)
  {
  }
}
